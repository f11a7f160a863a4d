/** The per-answer feedback that the session reads out of the interviewer's
    reply (`extractFeedback`): the score, the strengths, improvements and
    suggestions sections, the model answer, the interviewer role and the
    difficulty. Each regular expression of the source is written out here as
    the leftmost match its case-insensitive search finds. All of them are
    built from ASCII literals, `[:\s]+`, `\d+` and a lazy `(.*?)` ended by a
    lookahead, so the greedy runs never need to give characters back and the
    match at a position is decided as below. */
module FeedbackExtraction {
  import opened Wrappers
  import opened Text
  import opened Lists
  import opened InterviewTypes

  // ---------------------------------------------------------------------
  // Case-insensitive matching
  // ---------------------------------------------------------------------

  /** The lower-case ASCII literal `w` occurs at position `p` of `s`, ignoring
      case. Outside the unicode mode a case-insensitive pattern letter only
      matches the two ASCII cases of that letter, which is what comparing
      `Lower` gives. */
  predicate MatchesAt(s: string, p: nat, w: string) {
    p + |w| <= |s| && Lower(s[p..p + |w|]) == w
  }

  /** A character of the class `[:\s]`. */
  predicate IsRunChar(c: char) {
    c == ':' || IsSpace(c)
  }

  /** The end of the longest run of `[:\s]` starting at `p`. */
  function RunEnd(s: string, p: nat): (q: nat)
    requires p <= |s|
    ensures p <= q <= |s|
    ensures forall k :: p <= k < q ==> IsRunChar(s[k])
    ensures q == |s| || !IsRunChar(s[q])
    decreases |s| - p
  {
    if p < |s| && IsRunChar(s[p]) then RunEnd(s, p + 1) else p
  }

  /** The end of the longest run of decimal digits starting at `p`. */
  function DigitEnd(s: string, p: nat): (q: nat)
    requires p <= |s|
    ensures p <= q <= |s|
    ensures AllDigits(s[p..q])
    ensures q == |s| || !IsDigit(s[q])
    decreases |s| - p
  {
    if p < |s| && IsDigit(s[p]) then
      var q := DigitEnd(s, p + 1);
      assert s[p..q] == [s[p]] + s[p + 1..q];
      q
    else p
  }

  // ---------------------------------------------------------------------
  // The leftmost match
  // ---------------------------------------------------------------------

  /** The regular expressions of the extractor (and the lookahead that ends a
      lazy capture), each decided at one start position by `MatchAt`. */
  datatype Pattern =
    | ScorePattern
    | Labelled(keys: seq<string>)
    | Lookahead(stops: seq<string>)
    | RolePattern
    | DifficultyPattern
    | ImprovementsAsWrittenPattern

  predicate MatchAt(pat: Pattern, s: string, p: nat)
    requires p <= |s|
  {
    match pat
    case ScorePattern => ScoreAt(s, p)
    case Labelled(keys) => KeyRun(s, p, keys).Some?
    case Lookahead(stops) => StopAt(s, p, stops)
    case RolePattern => RolePhraseAt(s, p).Some?
    case DifficultyPattern => DifficultyAt(s, p).Some?
    case ImprovementsAsWrittenPattern => AreaLabelAt(s, p) || KeyRun(s, p, ImprovementWords).Some?
  }

  /** The first position from `p` on where `pat` matches: a search tries each
      start position in turn and takes the first that succeeds. */
  function FirstMatch(pat: Pattern, s: string, p: nat): (r: Option<nat>)
    requires p <= |s|
    ensures r.Some? ==> p <= r.value <= |s| && MatchAt(pat, s, r.value)
    ensures r.Some? ==> forall q :: p <= q < r.value ==> !MatchAt(pat, s, q)
    ensures r.None? ==> forall q :: p <= q <= |s| ==> !MatchAt(pat, s, q)
    decreases |s| - p
  {
    if MatchAt(pat, s, p) then Some(p) else if p == |s| then None else FirstMatch(pat, s, p + 1)
  }

  /** The search finds the first matching position and no other. */
  lemma {:induction false} FirstMatchIs(pat: Pattern, s: string, p: nat, q: nat)
    requires p <= q <= |s| && MatchAt(pat, s, q)
    requires forall k :: p <= k < q ==> !MatchAt(pat, s, k)
    ensures FirstMatch(pat, s, p) == Some(q)
    decreases q - p
  {
    if p < q {
      assert !MatchAt(pat, s, p);
      FirstMatchIs(pat, s, p + 1, q);
    }
  }

  // ---------------------------------------------------------------------
  // The score: /score[:\s]+(\d+)\/10/i
  // ---------------------------------------------------------------------

  predicate ScoreAt(s: string, p: nat) {
    && MatchesAt(s, p, "score")
    && var q := RunEnd(s, p + 5);
    && q > p + 5
    && var e := DigitEnd(s, q);
    && e > q && MatchesAt(s, e, "/10")
  }

  /** The score the reply states: `parseInt` of the digits of the leftmost
      `score: N/10`, or 7 when no such text occurs. */
  function ScoreOf(s: string): (score: nat)
    ensures (forall p :: 0 <= p <= |s| ==> !ScoreAt(s, p)) ==> score == 7
  {
    match FirstMatch(ScorePattern, s, 0)
    case None => 7
    case Some(p) =>
      var q := RunEnd(s, p + 5);
      DigitsValue(s[q..DigitEnd(s, q)])
  }

  /** The leftmost `score: N/10` decides the score: its digits, read by
      `parseInt`, whatever text comes before it. */
  lemma ScoreIsFirst(s: string, p: nat)
    requires p <= |s| && ScoreAt(s, p)
    requires forall k :: 0 <= k < p ==> !ScoreAt(s, k)
    ensures ScoreOf(s) == DigitsValue(s[RunEnd(s, p + 5)..DigitEnd(s, RunEnd(s, p + 5))])
  {
    forall k | 0 <= k < p
      ensures !MatchAt(ScorePattern, s, k)
    {
    }
    FirstMatchIs(ScorePattern, s, 0, p);
  }

  /** A score written by the reply is read back: for every `n`, a reply that
      holds `Score: n/10` after a text with no score statement of its own has
      score `n`. */
  lemma ScoreRoundTrip(s: string, pre: string, n: nat, rest: string)
    requires s == pre + "Score: " + NatToString(n) + "/10" + rest
    requires forall k :: 0 <= k < |pre| ==> !ScoreAt(s, k)
    ensures ScoreOf(s) == n
  {
    var digits := NatToString(n);
    var p := |pre|;
    ScoreTextParts(s, pre, digits, rest);
    ScoreWrittenAt(s, p, digits);
    ScoreIsFirst(s, p);
    DigitsValueOfNatToString(n);
  }

  /** Where the parts of `pre + "Score: " + digits + "/10" + rest` sit. */
  lemma ScoreTextParts(s: string, pre: string, digits: string, rest: string)
    requires s == pre + "Score: " + digits + "/10" + rest
    ensures var p := |pre|;
            && p + 10 + |digits| <= |s| && s[p..p + 7] == "Score: "
            && s[p + 7..p + 7 + |digits|] == digits && s[p + 7 + |digits|..p + 10 + |digits|] == "/10"
  {
  }

  /** `Score: ` followed by a numeral and `/10` at `p` is a score statement
      whose digits are that numeral. */
  lemma ScoreWrittenAt(s: string, p: nat, digits: string)
    requires |digits| > 0 && AllDigits(digits) && p + 10 + |digits| <= |s|
    requires s[p..p + 7] == "Score: " && s[p + 7..p + 7 + |digits|] == digits
    requires s[p + 7 + |digits|..p + 10 + |digits|] == "/10"
    ensures ScoreAt(s, p) && RunEnd(s, p + 5) == p + 7 && DigitEnd(s, p + 7) == p + 7 + |digits|
    ensures s[RunEnd(s, p + 5)..DigitEnd(s, RunEnd(s, p + 5))] == digits
  {
    assert s[p..p + 5] == s[p..p + 7][..5] == "Score";
    assert Lower(s[p..p + 5]) == "score";
    ScoreColonRun(s, p, digits[0]);
    var e := p + 7 + |digits|;
    assert s[e] == '/';
    DigitRunOf(s, p + 7, digits);
    assert MatchesAt(s, e, "/10") by {
      assert Lower(s[e..e + 3]) == "/10";
    }
  }

  /** The `[:\s]+` run after `Score` in `Score: d` is the colon and the space. */
  lemma ScoreColonRun(s: string, p: nat, d: char)
    requires p + 7 < |s| && s[p..p + 7] == "Score: " && s[p + 7] == d && IsDigit(d)
    ensures RunEnd(s, p + 5) == p + 7
  {
    assert s[p + 5] == ':' && s[p + 6] == ' ';
    assert RunEnd(s, p + 7) == p + 7;
    assert RunEnd(s, p + 6) == RunEnd(s, p + 7);
  }

  /** A digit string embedded at `p` and followed by a non-digit ends there. */
  lemma {:induction false} DigitRunOf(s: string, p: nat, digits: string)
    requires AllDigits(digits) && p + |digits| < |s| && s[p..p + |digits|] == digits
    requires !IsDigit(s[p + |digits|])
    ensures DigitEnd(s, p) == p + |digits|
    decreases |digits|
  {
    if |digits| > 0 {
      assert s[p] == digits[0];
      assert s[p + 1..p + 1 + |digits[1..]|] == digits[1..];
      DigitRunOf(s, p + 1, digits[1..]);
    }
  }

  // ---------------------------------------------------------------------
  // The labelled sections: /key[:\s]+(.*?)(?=stop|...|$)/is
  // ---------------------------------------------------------------------

  /** The first alternative of `keys`, in order, that occurs at `p` followed by
      at least one `[:\s]`; the result is where the capture starts. */
  function KeyRun(s: string, p: nat, keys: seq<string>): (r: Option<nat>)
    requires p <= |s|
    ensures r.Some? ==> p < r.value <= |s|
  {
    if keys == [] then None
    else if MatchesAt(s, p, keys[0]) && RunEnd(s, p + |keys[0]|) > p + |keys[0]| then
      Some(RunEnd(s, p + |keys[0]|))
    else KeyRun(s, p, keys[1..])
  }

  /** The label alternatives are tried in order: the capture starts after the
      `[:\s]` run of the first alternative that occurs at `p` with such a run. */
  lemma {:induction false} KeyRunFirst(s: string, p: nat, keys: seq<string>, i: nat)
    requires p <= |s| && i < |keys| && MatchesAt(s, p, keys[i]) && RunEnd(s, p + |keys[i]|) > p + |keys[i]|
    requires forall j :: 0 <= j < i ==> !(MatchesAt(s, p, keys[j]) && RunEnd(s, p + |keys[j]|) > p + |keys[j]|)
    ensures KeyRun(s, p, keys) == Some(RunEnd(s, p + |keys[i]|))
  {
    if i > 0 {
      assert !(MatchesAt(s, p, keys[0]) && RunEnd(s, p + |keys[0]|) > p + |keys[0]|);
      forall j | 0 <= j < i - 1
        ensures !(MatchesAt(s, p, keys[1..][j]) && RunEnd(s, p + |keys[1..][j]|) > p + |keys[1..][j]|)
      {
        assert keys[1..][j] == keys[j + 1];
      }
      KeyRunFirst(s, p, keys[1..], i - 1);
    }
  }

  /** The lookahead `(?=stop|...|$)` holds at `e`. */
  predicate StopAt(s: string, e: nat, stops: seq<string>) {
    e == |s| || exists i :: 0 <= i < |stops| && MatchesAt(s, e, stops[i])
  }

  /** The end of the lazy capture that starts at `q`: the first position from
      `q` on where the lookahead holds. */
  function StopFrom(s: string, q: nat, stops: seq<string>): (e: nat)
    requires q <= |s|
    ensures q <= e <= |s| && StopAt(s, e, stops)
    ensures forall k :: q <= k < e ==> !MatchAt(Lookahead(stops), s, k)
  {
    match FirstMatch(Lookahead(stops), s, q)
    case Some(e) => e
    case None => |s|
  }

  /** The text a section pattern captures, or `None` when it does not match. */
  function Section(s: string, keys: seq<string>, stops: seq<string>): (r: Option<string>)
    ensures r.None? <==> forall p :: 0 <= p <= |s| ==> !MatchAt(Labelled(keys), s, p)
  {
    match FirstMatch(Labelled(keys), s, 0)
    case None => None
    case Some(p) =>
      var q := KeyRun(s, p, keys).value;
      Some(s[q..StopFrom(s, q, stops)])
  }

  /** What a section capture is: the text from just after the first label and
      its `[:\s]` run up to the first stop word after it, or the end. */
  lemma SectionIsFirstLabel(s: string, keys: seq<string>, stops: seq<string>, p: nat)
    requires p <= |s| && MatchAt(Labelled(keys), s, p)
    requires forall k :: 0 <= k < p ==> !MatchAt(Labelled(keys), s, k)
    ensures var q := KeyRun(s, p, keys).value;
            Section(s, keys, stops) == Some(s[q..StopFrom(s, q, stops)])
  {
    FirstMatchIs(Labelled(keys), s, 0, p);
  }

  /** `strengths?[:\s]+(.*?)(?=areas? for improvement|improvements?|suggestions?|score|$)` */
  const StrengthKeys: seq<string> := ["strengths", "strength"]
  const StrengthStops: seq<string> :=
    ["areas for improvement", "area for improvement", "improvements", "improvement",
     "suggestions", "suggestion", "score"]
  /** `suggestions?[:\s]+(.*?)(?=score|$)` */
  const SuggestionKeys: seq<string> := ["suggestions", "suggestion"]
  const SuggestionStops: seq<string> := ["score"]
  /** `model answer[:\s]+(.*?)(?=\n\n|$)` */
  const ModelAnswerKeys: seq<string> := ["model answer"]
  const ModelAnswerStops: seq<string> := ["\n\n"]
  /** The label of the improvements section, in both of its spellings. */
  const AreaLabels: seq<string> := ["areas for improvement", "area for improvement"]
  const ImprovementWords: seq<string> := ["improvements", "improvement"]
  const ImprovementStops: seq<string> := ["suggestions", "suggestion", "score"]
  /** The grouped alternatives `(?:areas? for improvement|improvements?)`. */
  const ImprovementKeys: seq<string> :=
    ["areas for improvement", "area for improvement", "improvements", "improvement"]

  /** The bare label `areas? for improvement` occurs at `p`. */
  predicate AreaLabelAt(s: string, p: nat) {
    MatchesAt(s, p, AreaLabels[0]) || MatchesAt(s, p, AreaLabels[1])
  }

  /** The improvements pattern as written:
      `areas? for improvement|improvements?[:\s]+(.*?)(?=suggestions?|score|$)`.
      The alternation is at the top, so its first branch is the bare label with
      no group: where that label comes first the match has no capture
      (`Some(None)`). */
  function ImprovementsAsWritten(s: string): (r: Option<Option<string>>)
    ensures r.None? <==> forall p :: 0 <= p <= |s| ==> !MatchAt(ImprovementsAsWrittenPattern, s, p)
  {
    match FirstMatch(ImprovementsAsWrittenPattern, s, 0)
    case None => None
    case Some(p) =>
      if AreaLabelAt(s, p) then Some(None)
      else
        var q := KeyRun(s, p, ImprovementWords).value;
        Some(Some(s[q..StopFrom(s, q, ImprovementStops)]))
  }

  /** Wherever the bare label is the first thing the pattern as written finds,
      the improvements list comes out empty, whatever follows the label. */
  lemma AsWrittenDropsLabelledList(s: string, p: nat)
    requires p <= |s| && AreaLabelAt(s, p)
    requires forall k :: 0 <= k < p ==> !MatchAt(ImprovementsAsWrittenPattern, s, k)
    ensures ImprovementsAsWritten(s) == Some(None)
    ensures ParseList(ImprovementsAsWritten(s).value) == []
  {
    FirstMatchIs(ImprovementsAsWrittenPattern, s, 0, p);
  }

  /** The reply format the prompt asks for loses its improvements under the
      pattern as written: the label is found, the list behind it is not. */
  lemma ImprovementsAsWrittenLosesList()
    ensures ImprovementsAsWritten("Areas for improvement: be concise") == Some(None)
    ensures ParseList(ImprovementsAsWritten("Areas for improvement: be concise").value) == []
  {
    var s := "Areas for improvement: be concise";
    assert s[0..21] == "Areas for improvement";
    assert Lower("Areas for improvement") == "areas for improvement";
    AsWrittenDropsLabelledList(s, 0);
  }

  /** The improvements pattern as evidently intended, with the alternation
      grouped: `(?:areas? for improvement|improvements?)[:\s]+(.*?)(?=...)`. */
  function Improvements(s: string): (r: Option<string>)
    ensures r.None? <==> forall p :: 0 <= p <= |s| ==> !MatchAt(Labelled(ImprovementKeys), s, p)
  {
    Section(s, ImprovementKeys, ImprovementStops)
  }

  /** Under the grouped pattern the same reply keeps its list. */
  lemma ImprovementsKeepsList()
    ensures Improvements("Areas for improvement: be concise") == Some("be concise")
    ensures ParseList(Improvements("Areas for improvement: be concise")) == ["be concise"]
  {
    ExampleCapture("Areas for improvement: be concise");
    PlainExampleItem("be concise");
    ParseListOfPlainItem("be concise");
  }

  /** The example's list is one plain item. */
  lemma PlainExampleItem(t: string)
    requires t == "be concise"
    ensures IsTrimmed(t) && KeepItem(t)
    ensures forall k :: 0 <= k < |t| ==> t[k] !in ListSeparators
  {
    assert forall k :: 0 <= k < |t| ==> 'a' <= t[k] <= 'z' || t[k] == ' ';
    Utf16LengthOfBmp(t);
  }

  lemma ExampleCapture(s: string)
    requires s == "Areas for improvement: be concise"
    ensures Improvements(s) == Some("be concise")
  {
    var keys := ImprovementKeys;
    ExampleLabel(s);
    KeyRunFirst(s, 0, keys, 0);
    SectionIsFirstLabel(s, keys, ImprovementStops, 0);
    NoStopInTail(s, 23, ImprovementStops);
    assert Section(s, keys, ImprovementStops) == Some(s[23..|s|]);
    assert s == "Areas for improvement: " + "be concise";
    assert s[23..|s|] == "be concise";
  }

  /** The example reply opens with the label and its `: ` run. */
  lemma ExampleLabel(s: string)
    requires s == "Areas for improvement: be concise"
    ensures MatchesAt(s, 0, ImprovementKeys[0]) && RunEnd(s, 21) == 23
  {
    assert s[0..21] == "Areas for improvement";
    assert Lower("Areas for improvement") == "areas for improvement";
    assert !IsRunChar(s[23]);
    assert RunEnd(s, 22) == RunEnd(s, 23);
  }

  /** No stop word of the improvements section begins in the tail of the
      example reply, so its capture runs to the end. */
  lemma NoStopInTail(s: string, q: nat, stops: seq<string>)
    requires s == "Areas for improvement: be concise" && q == 23 && stops == ImprovementStops
    ensures StopFrom(s, q, stops) == |s|
  {
    forall e | q <= e < |s| ensures !MatchAt(Lookahead(stops), s, e) {
      forall i | 0 <= i < |stops| ensures !MatchesAt(s, e, stops[i]) {
        assert stops[i][0] == 's';
        assert e + |stops[i]| <= |s| ==> Lower(s[e..e + |stops[i]|])[0] == LowerChar(s[e]);
        assert s[23..] == "be concise";
        assert s[e] == s[23..][e - 23];
        assert s[e] in "be concise";
      }
    }
    FirstMatchIs(Lookahead(stops), s, q, |s|);
  }

  // ---------------------------------------------------------------------
  // parseList
  // ---------------------------------------------------------------------

  /** The separators of `split(/[•\-\n]/)`. */
  const ListSeparators: set<char> := {'•', '-', '\n'}

  /** `item.length > 0 && item.length < 200`, in UTF-16 code units. */
  predicate KeepItem(item: string) {
    0 < Utf16Length(item) < 200
  }

  function TrimAll(xs: seq<string>): (r: seq<string>)
    ensures |r| == |xs| && forall i :: 0 <= i < |xs| ==> r[i] == Trim(xs[i])
  {
    if xs == [] then [] else [Trim(xs[0])] + TrimAll(xs[1..])
  }

  /** `filter(item => item.length > 0 && item.length < 200)`: the passing
      items in their order, each as often as in `xs`. */
  function KeepItems(xs: seq<string>): (r: seq<string>)
    ensures IsSubsequence(r, xs)
    ensures forall x :: multiset(r)[x] == if KeepItem(x) then multiset(xs)[x] else 0
    ensures forall i :: 0 <= i < |r| ==> KeepItem(r[i]) && r[i] in xs
    ensures forall x :: x in xs && KeepItem(x) ==> x in r
  {
    var r := Filter(xs, KeepItem);
    assert forall x :: x in r <==> multiset(r)[x] > 0;
    assert forall x :: x in xs <==> multiset(xs)[x] > 0;
    r
  }

  /** The trimmed pieces of a captured list, before the length filter: the
      i-th piece of the split, trimmed, one more than there are separators. */
  function ListPieces(t: string): (r: seq<string>)
    ensures |r| == SeparatorCount(t, ListSeparators) + 1
    ensures forall i :: 0 <= i < |r| ==> IsTrimmed(r[i])
    ensures |r| == |Split(t, ListSeparators)| && forall i :: 0 <= i < |r| ==> r[i] == Trim(Split(t, ListSeparators)[i])
  {
    SplitCount(t, ListSeparators);
    TrimAll(Split(t, ListSeparators))
  }

  /** `parseList(text)`: the first three pieces of the text, split at bullets,
      hyphens and line breaks and trimmed, that are non-empty and shorter than
      200 UTF-16 code units; nothing for a missing capture. */
  function ParseList(text: Option<string>): (r: seq<string>)
    ensures text.None? ==> r == []
    ensures |r| <= 3
    ensures text.Some? ==> var kept := KeepItems(ListPieces(text.value));
                           |r| == (if |kept| < 3 then |kept| else 3) && r == kept[..|r|]
  {
    match text
    case None => []
    case Some(t) =>
      var kept := KeepItems(ListPieces(t));
      if |kept| < 3 then kept else kept[..3]
  }

  /** Every listed item is trimmed, between 1 and 199 UTF-16 code units long, free of
      the separators, and the items come in the order of the text. */
  lemma ParseListItems(text: Option<string>)
    ensures var r := ParseList(text);
            && (forall i :: 0 <= i < |r| ==> IsTrimmed(r[i]) && 0 < Utf16Length(r[i]) < 200)
            && (forall i, k :: 0 <= i < |r| && 0 <= k < |r[i]| ==> r[i][k] !in ListSeparators)
            && (text.Some? ==> IsSubsequence(r, ListPieces(text.value)))
  {
    if text.Some? {
      var pieces := Split(text.value, ListSeparators);
      var kept := KeepItems(TrimAll(pieces));
      var r := ParseList(text);
      assert r == kept[..|r|];
      forall j, k | 0 <= j < |pieces| && 0 <= k < |pieces[j]| ensures pieces[j][k] !in ListSeparators {
        SplitPiecesFree(text.value, ListSeparators, j, k);
      }
      forall i | 0 <= i < |r| ensures IsTrimmed(r[i]) && forall k :: 0 <= k < |r[i]| ==> r[i][k] !in ListSeparators {
        assert r[i] == kept[i];
        KeptItemFacts(pieces, kept, i);
      }
      PrefixSubsequence(kept, |r|);
      SubsequenceTransitive(r, kept, TrimAll(pieces));
    }
  }

  /** A kept item is the trim of some piece, hence trimmed and free of separators. */
  lemma KeptItemFacts(pieces: seq<string>, kept: seq<string>, i: nat)
    requires kept == KeepItems(TrimAll(pieces)) && i < |kept|
    requires forall j, k :: 0 <= j < |pieces| && 0 <= k < |pieces[j]| ==> pieces[j][k] !in ListSeparators
    ensures IsTrimmed(kept[i])
    ensures forall k :: 0 <= k < |kept[i]| ==> kept[i][k] !in ListSeparators
  {
    var trimmed := TrimAll(pieces);
    assert kept[i] in trimmed;
    var j :| 0 <= j < |trimmed| && trimmed[j] == kept[i];
    assert kept[i] == Trim(pieces[j]);
    TrimIsInfix(pieces[j]);
    forall k | 0 <= k < |kept[i]| ensures kept[i][k] !in ListSeparators {
      ContainedChars(pieces[j], kept[i], k);
      var m :| 0 <= m < |pieces[j]| && pieces[j][m] == kept[i][k];
    }
  }

  /** A capture without separators and white space at its ends, short enough
      to be kept, is one item. */
  lemma ParseListOfPlainItem(t: string)
    requires IsTrimmed(t) && KeepItem(t)
    requires forall k :: 0 <= k < |t| ==> t[k] !in ListSeparators
    ensures ParseList(Some(t)) == [t]
  {
    SplitNoSeparator(t, ListSeparators);
    TrimTrimmed(t);
    assert TrimAll([t]) == [t];
    assert KeepItems([t]) == [t];
  }

  // ---------------------------------------------------------------------
  // The suggestions and the model answer
  // ---------------------------------------------------------------------

  const DefaultSuggestion: string := "Continue practicing and refining your responses."

  /** `suggestionsMatch?.[1]?.trim().slice(0, 300) || default`: the trimmed
      capture cut to 300 UTF-16 code units, or the default when that is empty. */
  function Suggestion(capture: Option<string>): (r: string)
    ensures capture.None? || Trim(capture.value) == "" ==> r == DefaultSuggestion
    ensures capture.Some? && Trim(capture.value) != "" ==>
              && var t := Trim(capture.value);
              && r != [] && StartsWith(t, r) && Utf16Length(r) <= 300
              && (|r| < |t| ==> 300 < Utf16Length(r) + CodeUnits(t[|r|]))
              && (Utf16Length(t) <= 300 ==> r == t)
  {
    match capture
    case None => DefaultSuggestion
    case Some(c) =>
      var t := Trim(c);
      if t == "" then DefaultSuggestion else Utf16Prefix(t, 300)
  }

  // ---------------------------------------------------------------------
  // The interviewer role: /(HR Manager|Technical Lead|Behavioral Coach|Domain Expert)/i
  // ---------------------------------------------------------------------

  const RolePhrases: seq<string> := ["hr manager", "technical lead", "behavioral coach", "domain expert"]

  /** The alternative of the role pattern that matches at `p`; their first
      letters differ, so at most one does. */
  function RolePhraseAt(s: string, p: nat): (r: Option<nat>)
    ensures r.Some? ==> r.value < |RolePhrases| && MatchesAt(s, p, RolePhrases[r.value])
    ensures r.None? ==> forall i :: 0 <= i < |RolePhrases| ==> !MatchesAt(s, p, RolePhrases[i])
  {
    if MatchesAt(s, p, RolePhrases[0]) then Some(0)
    else if MatchesAt(s, p, RolePhrases[1]) then Some(1)
    else if MatchesAt(s, p, RolePhrases[2]) then Some(2)
    else if MatchesAt(s, p, RolePhrases[3]) then Some(3)
    else None
  }

  /** The text the role pattern captures, as it is written in the reply; in
      lower case it is one of the four role names. */
  function RoleCapture(s: string): (r: Option<string>)
    ensures r.Some? ==> Lower(r.value) in RolePhrases
    ensures r.None? <==> forall p :: 0 <= p <= |s| ==> RolePhraseAt(s, p).None?
  {
    match FirstMatch(RolePattern, s, 0)
    case None =>
      forall p | 0 <= p <= |s|
        ensures RolePhraseAt(s, p).None?
      {
        assert !MatchAt(RolePattern, s, p);
      }
      None
    case Some(p) =>
      assert MatchAt(RolePattern, s, p);
      var i := RolePhraseAt(s, p).value;
      Some(s[p..p + |RolePhrases[i]|])
  }

  /** `getRole(roleText)`: the keywords are checked in the order technical,
      behavioral, domain or expert, and anything else is the HR interviewer. */
  function GetRole(roleText: Option<string>): (r: InterviewerRole)
    ensures roleText.None? ==> r == Hr
    ensures roleText.Some? ==> var lower := Lower(roleText.value);
            && (r == TechnicalLead <==> Contains(lower, "technical"))
            && (r == BehavioralCoach <==> !Contains(lower, "technical") && Contains(lower, "behavioral"))
            && (r == DomainExpert <==> (!Contains(lower, "technical") && !Contains(lower, "behavioral")
                                       && (Contains(lower, "domain") || Contains(lower, "expert"))))
  {
    match roleText
    case None => Hr
    case Some(t) =>
      var lower := Lower(t);
      if Contains(lower, "technical") then TechnicalLead
      else if Contains(lower, "behavioral") then BehavioralCoach
      else if Contains(lower, "domain") || Contains(lower, "expert") then DomainExpert
      else Hr
  }

  /** `getPersonality(roleText)`: strict, logical, creative, then ceo or
      visionary, and the friendly HR personality otherwise. */
  function GetPersonality(roleText: Option<string>): (r: Personality)
    ensures roleText.None? ==> r == FriendlyHr
    ensures roleText.Some? ==> var lower := Lower(roleText.value);
            && (r == StrictEngineer <==> Contains(lower, "strict"))
            && (r == LogicalAnalyst <==> !Contains(lower, "strict") && Contains(lower, "logical"))
            && (r == CreativeSolver <==> (!Contains(lower, "strict") && !Contains(lower, "logical")
                                        && Contains(lower, "creative")))
            && (r == CeoVisionary <==> (!Contains(lower, "strict") && !Contains(lower, "logical")
                                      && !Contains(lower, "creative")
                                      && (Contains(lower, "ceo") || Contains(lower, "visionary"))))
            && (r == FriendlyHr <==> (!Contains(lower, "strict") && !Contains(lower, "logical")
                                    && !Contains(lower, "creative") && !Contains(lower, "ceo")
                                    && !Contains(lower, "visionary")))
  {
    match roleText
    case None => FriendlyHr
    case Some(t) =>
      var lower := Lower(t);
      if Contains(lower, "strict") then StrictEngineer
      else if Contains(lower, "logical") then LogicalAnalyst
      else if Contains(lower, "creative") then CreativeSolver
      else if Contains(lower, "ceo") || Contains(lower, "visionary") then CeoVisionary
      else FriendlyHr
  }

  // ---------------------------------------------------------------------
  // The difficulty: /difficulty[:\s]+(easy|medium|hard|expert)/i
  // ---------------------------------------------------------------------

  function DifficultyAt(s: string, p: nat): (r: Option<Difficulty>)
    ensures r.Some? ==> MatchesAt(s, p, "difficulty")
  {
    if MatchesAt(s, p, "difficulty") then
      var q := RunEnd(s, p + 10);
      if q == p + 10 then None
      else if MatchesAt(s, q, "easy") then Some(Easy)
      else if MatchesAt(s, q, "medium") then Some(Medium)
      else if MatchesAt(s, q, "hard") then Some(Hard)
      else if MatchesAt(s, q, "expert") then Some(Expert)
      else None
    else None
  }

  /** The lower-cased capture of the leftmost difficulty statement, or medium. */
  function DifficultyOf(s: string): (d: Difficulty)
    ensures (forall p :: 0 <= p <= |s| ==> DifficultyAt(s, p).None?) ==> d == Medium
  {
    match FirstMatch(DifficultyPattern, s, 0)
    case None => Medium
    case Some(p) => DifficultyAt(s, p).value
  }

  /** The leftmost difficulty statement decides the difficulty, whatever
      text comes before it. */
  lemma DifficultyIsFirst(s: string, p: nat)
    requires p <= |s| && DifficultyAt(s, p).Some?
    requires forall k :: 0 <= k < p ==> DifficultyAt(s, k).None?
    ensures DifficultyOf(s) == DifficultyAt(s, p).value
  {
    forall k | 0 <= k < p
      ensures !MatchAt(DifficultyPattern, s, k)
    {
    }
    FirstMatchIs(DifficultyPattern, s, 0, p);
  }

  /** A difficulty written by the reply is read back: a reply that holds
      `Difficulty: <name>` after a text with no difficulty statement of its
      own has that difficulty. */
  lemma DifficultyRoundTrip(s: string, pre: string, d: Difficulty, rest: string)
    requires s == pre + "Difficulty: " + DifficultyName(d) + rest
    requires forall k :: 0 <= k < |pre| ==> DifficultyAt(s, k).None?
    ensures DifficultyOf(s) == d
  {
    var name := DifficultyName(d);
    var p := |pre|;
    assert s[p..p + 10] == "Difficulty";
    assert Lower(s[p..p + 10]) == "difficulty";
    assert s[p + 12..p + 12 + |name|] == name;
    assert RunEnd(s, p + 10) == p + 12 by {
      assert s[p + 10] == ':' && s[p + 11] == ' ' && s[p + 12] == name[0];
      assert RunEnd(s, p + 11) == RunEnd(s, p + 12);
    }
    DifficultyWord(s, p + 12, d);
    assert DifficultyAt(s, p) == Some(d);
    DifficultyIsFirst(s, p);
  }

  /** The name of a difficulty written at `q` matches its own alternative and
      none before it. */
  lemma DifficultyWord(s: string, q: nat, d: Difficulty)
    requires q + |DifficultyName(d)| <= |s| && s[q..q + |DifficultyName(d)|] == DifficultyName(d)
    ensures MatchesAt(s, q, DifficultyName(d))
    ensures d != Easy ==> !MatchesAt(s, q, "easy")
    ensures d != Easy && d != Medium ==> !MatchesAt(s, q, "medium")
    ensures d == Expert ==> !MatchesAt(s, q, "hard")
  {
    var name := DifficultyName(d);
    assert Lower(name) == name;
    assert s[q] == name[0] && s[q + 1] == name[1];
  }

  // ---------------------------------------------------------------------
  // The feedback record
  // ---------------------------------------------------------------------

  datatype DimensionScores = DimensionScores(
    technicalKnowledge: nat, problemSolving: nat, communication: nat,
    behavioralSkills: nat, culturalFit: nat, overall: nat)

  /** The record `extractFeedback` builds (wider than the declared type). */
  datatype QuestionFeedback = QuestionFeedback(
    score: nat,
    multiDimensionalScore: DimensionScores,
    strengths: seq<string>,
    improvements: seq<string>,
    suggestions: string,
    modelAnswer: Option<string>,
    interviewerRole: InterviewerRole,
    interviewerPersonality: Personality,
    difficulty: Difficulty,
    timeSpent: nat)

  /** `?.trim()`: a missing capture stays missing, a capture becomes a
      trimmed piece of itself. */
  function TrimOption(o: Option<string>): (r: Option<string>)
    ensures r.Some? <==> o.Some?
    ensures r.Some? ==> IsTrimmed(r.value) && Contains(o.value, r.value)
    ensures r.Some? ==> r.value == Trim(o.value)
  {
    match o
    case None => None
    case Some(t) =>
      TrimIsInfix(t);
      Some(Trim(t))
  }

  /** `extractFeedback(response)`: always a record; every dimension carries the
      one score, no time is recorded, and the lists obey `ParseList`. */
  function ExtractFeedback(response: string): (r: QuestionFeedback)
    ensures r.score == ScoreOf(response)
    ensures var m := r.multiDimensionalScore;
            && m.technicalKnowledge == r.score && m.problemSolving == r.score
            && m.communication == r.score && m.behavioralSkills == r.score
            && m.culturalFit == r.score && m.overall == r.score
    ensures r.timeSpent == 0
    ensures |r.strengths| <= 3 && |r.improvements| <= 3
    ensures r.strengths == ParseList(Section(response, StrengthKeys, StrengthStops))
    ensures r.improvements == ParseList(Improvements(response))
    ensures r.suggestions == Suggestion(Section(response, SuggestionKeys, SuggestionStops))
    ensures r.modelAnswer == TrimOption(Section(response, ModelAnswerKeys, ModelAnswerStops))
    ensures r.interviewerRole == GetRole(RoleCapture(response))
    ensures r.difficulty == DifficultyOf(response)
    ensures r.interviewerPersonality == FriendlyHr
    ensures RoleCapture(response).None? ==> r.interviewerRole == Hr
  {
    var score := ScoreOf(response);
    var role := RoleCapture(response);
    PersonalityAlwaysFriendly(role);
    QuestionFeedback(
      score,
      DimensionScores(score, score, score, score, score, score),
      ParseList(Section(response, StrengthKeys, StrengthStops)),
      ParseList(Improvements(response)),
      Suggestion(Section(response, SuggestionKeys, SuggestionStops)),
      TrimOption(Section(response, ModelAnswerKeys, ModelAnswerStops)),
      GetRole(role),
      GetPersonality(role),
      DifficultyOf(response),
      0)
  }

  const PersonalityKeywords: seq<string> := ["strict", "logical", "creative", "ceo", "visionary"]

  /** None of the four role names the role pattern can capture holds a
      personality keyword, so the personality never depends on the reply. */
  lemma PersonalityAlwaysFriendly(role: Option<string>)
    requires role.Some? ==> Lower(role.value) in RolePhrases
    ensures GetPersonality(role) == FriendlyHr
  {
    if role.Some? {
      NoPersonalityKeyword(Lower(role.value));
    }
  }

  predicate HasPersonalityKeyword(lower: string) {
    || Contains(lower, "strict") || Contains(lower, "logical") || Contains(lower, "creative")
    || Contains(lower, "ceo") || Contains(lower, "visionary")
  }

  lemma NoPersonalityKeyword(lower: string)
    requires lower in RolePhrases
    ensures !HasPersonalityKeyword(lower)
  {
    if lower == RolePhrases[0] {
      NoKeywordWithout(lower, [0, 0, 0, 0, 0]);
    } else if lower == RolePhrases[1] {
      NoKeywordWithout(lower, [0, 1, 1, 2, 0]);
    } else if lower == RolePhrases[2] {
      NoKeywordInBehavioralCoach(lower);
    } else {
      NoKeywordWithout(lower, [0, 0, 0, 0, 0]);
    }
  }

  /** Each keyword has a letter, at the index `missing` gives for it, that `s`
      lacks, so no keyword occurs in `s`. */
  lemma NoKeywordWithout(s: string, missing: seq<nat>)
    requires |missing| == |PersonalityKeywords|
    requires forall j :: 0 <= j < |missing| ==>
               missing[j] < |PersonalityKeywords[j]| && PersonalityKeywords[j][missing[j]] !in s
    ensures !HasPersonalityKeyword(s)
  {
    forall j | 0 <= j < |missing|
      ensures !Contains(s, PersonalityKeywords[j])
    {
      MissingChar(s, PersonalityKeywords[j], missing[j]);
    }
    assert forall j :: 0 <= j < |missing| ==> !Contains(s, PersonalityKeywords[j]);
    assert !Contains(s, PersonalityKeywords[0]) && !Contains(s, PersonalityKeywords[1]);
    assert !Contains(s, PersonalityKeywords[2]) && !Contains(s, PersonalityKeywords[3]);
    assert !Contains(s, PersonalityKeywords[4]);
  }

  /** "behavioral coach" holds every letter of "ceo", so that keyword needs
      its own argument. */
  lemma NoKeywordInBehavioralCoach(s: string)
    requires s == "behavioral coach"
    ensures !HasPersonalityKeyword(s)
  {
    assert !Contains(s, "strict") by { MissingChar(s, "strict", 0); }
    assert !Contains(s, "logical") by { MissingChar(s, "logical", 2); }
    assert !Contains(s, "creative") by { MissingChar(s, "creative", 4); }
    assert !Contains(s, "ceo") by { NoCeoInCoach(s); }
    assert !Contains(s, "visionary") by { MissingChar(s, "visionary", 2); }
  }

  /** "behavioral coach" has every letter of "ceo", but not in a row. */
  lemma NoCeoInCoach(s: string)
    requires s == "behavioral coach"
    ensures !Contains(s, "ceo")
  {
    if Contains(s, "ceo") {
      var i := ContainsIndex(s, "ceo");
      OccurrenceChars(s, "ceo", i);
    }
  }

  /** The interviewer each role name stands for. */
  const PhraseRoles: seq<InterviewerRole> := [Hr, TechnicalLead, BehavioralCoach, DomainExpert]

  /** Each role name the pattern captures gives the role of the same name. */
  lemma RoleOfPhrase(t: string, k: nat)
    requires k < |RolePhrases| && Lower(t) == RolePhrases[k]
    ensures GetRole(Some(t)) == PhraseRoles[k]
  {
    if k == 0 {
      RoleOfHrManager(t);
    } else if k == 1 {
      RoleOfTechnicalLead(t);
    } else if k == 2 {
      RoleOfBehavioralCoach(t);
    } else {
      RoleOfDomainExpert(t);
    }
  }

  /** The role names start with different letters, so at most one matches
      at a position. */
  lemma OnePhraseAt(s: string, p: nat, k: nat)
    requires k < |RolePhrases| && MatchesAt(s, p, RolePhrases[k])
    ensures RolePhraseAt(s, p) == Some(k)
  {
    forall j | 0 <= j < |RolePhrases| && MatchesAt(s, p, RolePhrases[j])
      ensures j == k
    {
      assert Lower(s[p..p + |RolePhrases[j]|])[0] == LowerChar(s[p]) == RolePhrases[j][0];
      assert Lower(s[p..p + |RolePhrases[k]|])[0] == LowerChar(s[p]) == RolePhrases[k][0];
    }
  }

  /** The leftmost role name of the reply is what the pattern captures, as
      written in the reply. */
  lemma RoleCaptureAt(s: string, p: nat, k: nat)
    requires k < |RolePhrases| && MatchesAt(s, p, RolePhrases[k])
    requires forall q, i :: 0 <= q < p && 0 <= i < |RolePhrases| ==> !MatchesAt(s, q, RolePhrases[i])
    ensures RoleCapture(s) == Some(s[p..p + |RolePhrases[k]|])
  {
    OnePhraseAt(s, p, k);
    NoRolePhraseBefore(s, p);
    FirstMatchIs(RolePattern, s, 0, p);
    assert FirstMatch(RolePattern, s, 0) == Some(p);
  }

  /** Where no role name occurs, the role pattern does not match. */
  lemma NoRolePhraseBefore(s: string, p: nat)
    requires p <= |s|
    requires forall q, i :: 0 <= q < p && 0 <= i < |RolePhrases| ==> !MatchesAt(s, q, RolePhrases[i])
    ensures forall q :: 0 <= q < p ==> !MatchAt(RolePattern, s, q)
  {
    forall q | 0 <= q < p
      ensures !MatchAt(RolePattern, s, q)
    {
      assert RolePhraseAt(s, q).None?;
    }
  }

  /** A reply whose leftmost role name is the `k`-th records the `k`-th
      interviewer. */
  lemma ExtractedRole(response: string, p: nat, k: nat)
    requires k < |RolePhrases| && MatchesAt(response, p, RolePhrases[k])
    requires forall q, i :: 0 <= q < p && 0 <= i < |RolePhrases| ==> !MatchesAt(response, q, RolePhrases[i])
    ensures ExtractFeedback(response).interviewerRole == PhraseRoles[k]
  {
    RoleCaptureAt(response, p, k);
    RoleOfPhrase(RoleCapture(response).value, k);
  }

  lemma RoleOfHrManager(t: string)
    requires Lower(t) == "hr manager"
    ensures GetRole(Some(t)) == Hr
  {
    RoleKeywordsOfHrManager(Lower(t));
  }

  lemma RoleOfTechnicalLead(t: string)
    requires Lower(t) == "technical lead"
    ensures GetRole(Some(t)) == TechnicalLead
  {
    assert StartsWith(Lower(t), "technical");
  }

  lemma RoleOfBehavioralCoach(t: string)
    requires Lower(t) == "behavioral coach"
    ensures GetRole(Some(t)) == BehavioralCoach
  {
    RoleKeywordsOfBehavioralCoach(Lower(t));
  }

  lemma RoleOfDomainExpert(t: string)
    requires Lower(t) == "domain expert"
    ensures GetRole(Some(t)) == DomainExpert
  {
    RoleKeywordsOfDomainExpert(Lower(t));
  }

  lemma RoleKeywordsOfHrManager(s: string)
    requires s == "hr manager"
    ensures !Contains(s, "technical") && !Contains(s, "behavioral")
    ensures !Contains(s, "domain") && !Contains(s, "expert")
  {
    assert !Contains(s, "technical") by { MissingChar(s, "technical", 0); }
    assert !Contains(s, "behavioral") by { MissingChar(s, "behavioral", 0); }
    assert !Contains(s, "domain") by { MissingChar(s, "domain", 0); }
    assert !Contains(s, "expert") by { MissingChar(s, "expert", 1); }
  }

  lemma RoleKeywordsOfBehavioralCoach(s: string)
    requires s == "behavioral coach"
    ensures !Contains(s, "technical") && Contains(s, "behavioral")
  {
    assert !Contains(s, "technical") by { MissingChar(s, "technical", 0); }
    assert StartsWith(s, "behavioral");
  }

  lemma RoleKeywordsOfDomainExpert(s: string)
    requires s == "domain expert"
    ensures !Contains(s, "technical") && !Contains(s, "behavioral") && Contains(s, "domain")
  {
    assert !Contains(s, "technical") by { MissingChar(s, "technical", 2); }
    assert !Contains(s, "behavioral") by { MissingChar(s, "behavioral", 0); }
    assert StartsWith(s, "domain");
  }
}
