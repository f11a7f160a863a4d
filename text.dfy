/** String operations with the JavaScript meaning the front end relies on
    (`trim`, `toLowerCase`, `includes`, `startsWith`, `split`, `join`,
    decimal printing and `parseInt` of a digit run). Strings are sequences
    of code points; `length` and `slice` count UTF-16 code units, which
    `Utf16Length` and `Utf16Prefix` model. */
module Text {

  /** The ECMAScript WhiteSpace and LineTerminator code points: exactly what
      `String.prototype.trim` strips and what `\s` matches in a regular expression. */
  predicate IsSpace(c: char) {
    || c == '\t' || c == '\n' || c == '\U{000B}' || c == '\U{000C}' || c == '\r'
    || c == ' ' || c == '\U{00A0}' || c == '\U{1680}'
    || ('\U{2000}' <= c <= '\U{200A}')
    || c == '\U{2028}' || c == '\U{2029}' || c == '\U{202F}' || c == '\U{205F}'
    || c == '\U{3000}' || c == '\U{FEFF}'
  }

  /** A string with no white space at either end. */
  predicate IsTrimmed(s: string) {
    s == [] || (!IsSpace(s[0]) && !IsSpace(s[|s| - 1]))
  }

  /** The length of the white-space run `s` starts with. */
  function LeadingSpace(s: string): (n: nat)
    ensures n <= |s|
    ensures forall i :: 0 <= i < n ==> IsSpace(s[i])
    ensures n < |s| ==> !IsSpace(s[n])
  {
    if |s| > 0 && IsSpace(s[0]) then 1 + LeadingSpace(s[1..]) else 0
  }

  /** The length of the white-space run `s` ends with. */
  function TrailingSpace(s: string): (n: nat)
    ensures n <= |s|
    ensures forall i :: |s| - n <= i < |s| ==> IsSpace(s[i])
    ensures n < |s| ==> !IsSpace(s[|s| - n - 1])
  {
    if |s| > 0 && IsSpace(s[|s| - 1]) then 1 + TrailingSpace(s[..|s| - 1]) else 0
  }

  /** `s.trim()`: `s` with its leading and its trailing run of white space
      removed, and nothing else. */
  function Trim(s: string): (r: string)
    ensures IsTrimmed(r) && |r| <= |s|
    ensures r == [] <==> forall i :: 0 <= i < |s| ==> IsSpace(s[i])
    ensures LeadingSpace(s) + |r| <= |s| && r == s[LeadingSpace(s)..LeadingSpace(s) + |r|]
    ensures forall i :: LeadingSpace(s) + |r| <= i < |s| ==> IsSpace(s[i])
  {
    var a := LeadingSpace(s);
    var front := s[a..];
    var t := TrailingSpace(front);
    var r := front[..|front| - t];
    TrimInfix(s, a, front, t, r);
    TrimEnds(s, a, front, t, r);
    TrimEmpty(s, a, front, t, r);
    r
  }

  /** What is left between the two runs is an infix followed by white space. */
  lemma TrimInfix(s: string, a: nat, front: string, t: nat, r: string)
    requires a <= |s| && front == s[a..] && t <= |front| && r == front[..|front| - t]
    requires forall i :: |front| - t <= i < |front| ==> IsSpace(front[i])
    ensures a + |r| <= |s| && r == s[a..a + |r|]
    ensures forall i :: a + |r| <= i < |s| ==> IsSpace(s[i])
  {
    assert r == s[a..a + |r|];
    forall i | a + |r| <= i < |s|
      ensures IsSpace(s[i])
    {
      assert s[i] == front[i - a];
    }
  }

  /** Neither end of what is left is white space. */
  lemma TrimEnds(s: string, a: nat, front: string, t: nat, r: string)
    requires a <= |s| && front == s[a..] && t <= |front| && r == front[..|front| - t]
    requires a < |s| ==> !IsSpace(s[a])
    requires t < |front| ==> !IsSpace(front[|front| - t - 1])
    ensures IsTrimmed(r)
  {
    if r != [] {
      assert r[0] == s[a];
      assert r[|r| - 1] == front[|front| - t - 1];
    }
  }

  /** Nothing is left exactly when all of `s` is white space. */
  lemma TrimEmpty(s: string, a: nat, front: string, t: nat, r: string)
    requires a <= |s| && front == s[a..] && t <= |front| && r == front[..|front| - t]
    requires forall i :: 0 <= i < a ==> IsSpace(s[i])
    requires a < |s| ==> !IsSpace(s[a])
    requires forall i :: |front| - t <= i < |front| ==> IsSpace(front[i])
    ensures r == [] <==> forall i :: 0 <= i < |s| ==> IsSpace(s[i])
  {
    if a < |s| {
      assert front[0] == s[a];
      assert r != [];
    }
  }

  /** The trimmed text occurs in the text. */
  lemma TrimIsInfix(s: string)
    ensures Contains(s, Trim(s))
  {
    ContainsAt(s, Trim(s), LeadingSpace(s));
  }

  /** Trimming leaves an already trimmed string alone. */
  lemma TrimTrimmed(s: string)
    requires IsTrimmed(s)
    ensures Trim(s) == s
  {
  }

  function LowerChar(c: char): char {
    if 'A' <= c <= 'Z' then (c as int + 32) as char else c
  }

  /** `s.toLowerCase()`, restricted to the ASCII letters. */
  function Lower(s: string): (r: string)
    ensures |r| == |s|
    ensures forall i :: 0 <= i < |s| ==> r[i] == LowerChar(s[i])
  {
    seq(|s|, i requires 0 <= i < |s| => LowerChar(s[i]))
  }

  /** The UTF-16 code units of one code point: a surrogate pair for those
      beyond the Basic Multilingual Plane, a single unit for the rest. */
  function CodeUnits(c: char): nat {
    if c as int < 0x1_0000 then 1 else 2
  }

  /** `s.length`: JavaScript counts UTF-16 code units, not code points. */
  function Utf16Length(s: string): (n: nat)
    ensures |s| <= n <= 2 * |s|
  {
    if s == [] then 0 else CodeUnits(s[0]) + Utf16Length(s[1..])
  }

  /** Within the Basic Multilingual Plane a code point is one code unit. */
  lemma {:induction false} Utf16LengthOfBmp(s: string)
    requires forall k :: 0 <= k < |s| ==> s[k] as int < 0x1_0000
    ensures Utf16Length(s) == |s|
  {
    if s != [] {
      Utf16LengthOfBmp(s[1..]);
    }
  }

  /** `s.slice(0, n)` where the cut falls between code points: the longest
      prefix of `s` of at most `n` code units. */
  function Utf16Prefix(s: string, n: nat): (r: string)
    ensures |r| <= |s| && r == s[..|r|]
    ensures Utf16Length(r) <= n
    ensures |r| < |s| ==> n < Utf16Length(r) + CodeUnits(s[|r|])
    ensures Utf16Length(s) <= n ==> r == s
    decreases |s|
  {
    if s == [] || n < CodeUnits(s[0]) then []
    else
      var t := Utf16Prefix(s[1..], n - CodeUnits(s[0]));
      assert ([s[0]] + t)[1..] == t;
      [s[0]] + t
  }

  /** `s.startsWith(p)`. */
  predicate StartsWith(s: string, p: string) {
    |p| <= |s| && s[..|p|] == p
  }

  /** `s.includes(t)`: `t` occurs in `s` at some position. */
  predicate Contains(s: string, t: string)
    decreases |s|
  {
    StartsWith(s, t) || (|s| > 0 && Contains(s[1..], t))
  }

  lemma {:induction false} ContainsAt(s: string, t: string, i: nat)
    requires i + |t| <= |s| && s[i..i + |t|] == t
    ensures Contains(s, t)
  {
    if i > 0 {
      assert s[1..][i - 1..i - 1 + |t|] == t;
      ContainsAt(s[1..], t, i - 1);
    }
  }

  /** Where `t` occurs in `s`. */
  lemma {:induction false} ContainsIndex(s: string, t: string) returns (i: nat)
    requires Contains(s, t)
    ensures i + |t| <= |s| && s[i..i + |t|] == t
    decreases |s|
  {
    if StartsWith(s, t) {
      i := 0;
    } else {
      var j := ContainsIndex(s[1..], t);
      i := j + 1;
      assert s[i..i + |t|] == s[1..][j..j + |t|];
    }
  }

  /** Occurrence is transitive: what occurs in an infix of `s` occurs in `s`. */
  lemma ContainsTransitive(s: string, t: string, u: string)
    requires Contains(s, t) && Contains(t, u)
    ensures Contains(s, u)
  {
    var i := ContainsIndex(s, t);
    var j := ContainsIndex(t, u);
    forall k | 0 <= k < |u|
      ensures s[i + j + k] == u[k]
    {
      assert u[k] == t[j..j + |u|][k] == t[j + k];
      assert t[j + k] == s[i..i + |t|][j + k] == s[i + j + k];
    }
    assert s[i + j..i + j + |u|] == u;
    ContainsAt(s, u, i + j);
  }

  /** Every character of a string that occurs in `s` occurs in `s`. */
  lemma {:induction false} ContainedChars(s: string, t: string, k: nat)
    requires Contains(s, t) && k < |t|
    ensures t[k] in s
  {
    if StartsWith(s, t) {
      assert s[k] == t[k];
    } else {
      ContainedChars(s[1..], t, k);
    }
  }

  /** A string lacking one of the characters of `t` does not contain `t`. */
  lemma MissingChar(s: string, t: string, k: nat)
    requires k < |t| && t[k] !in s
    ensures !Contains(s, t)
  {
    if Contains(s, t) {
      ContainedChars(s, t, k);
    }
  }

  /** The characters of an occurrence, one by one. */
  lemma OccurrenceChars(s: string, t: string, i: nat)
    requires |t| >= 2 && i + |t| <= |s| && s[i..i + |t|] == t
    ensures s[i] == t[0] && s[i + 1] == t[1]
  {
    assert s[i..i + |t|][0] == s[i] && s[i..i + |t|][1] == s[i + 1];
  }

  lemma {:induction false} ContainsEmpty(s: string)
    ensures Contains(s, "")
  {
    assert StartsWith(s, "");
  }

  lemma {:induction false} ContainsInfix(a: string, t: string, b: string)
    ensures Contains(a + t + b, t)
  {
    assert (a + t + b)[|a|..|a| + |t|] == t;
    ContainsAt(a + t + b, t, |a|);
  }

  /** `s.split(c)` for a set of separator characters: the maximal runs of
      non-separators, separated at every separator, always at least one piece. */
  function Split(s: string, seps: set<char>): (r: seq<string>)
    ensures |r| >= 1
    decreases |s|
  {
    if |s| == 0 then [""]
    else if s[0] in seps then [""] + Split(s[1..], seps)
    else
      var rest := Split(s[1..], seps);
      [[s[0]] + rest[0]] + rest[1..]
  }

  /** How many characters of `s` are separators. */
  function SeparatorCount(s: string, seps: set<char>): nat
    decreases |s|
  {
    if s == [] then 0 else (if s[0] in seps then 1 else 0) + SeparatorCount(s[1..], seps)
  }

  /** Splitting at n separators gives n + 1 pieces. */
  lemma {:induction false} SplitCount(s: string, seps: set<char>)
    ensures |Split(s, seps)| == SeparatorCount(s, seps) + 1
    decreases |s|
  {
    if s != [] {
      SplitCount(s[1..], seps);
    }
  }

  /** All pieces but the last: the ones a separator has closed. */
  function Closed(pieces: seq<string>): seq<string>
    requires |pieces| >= 1
  {
    pieces[..|pieces| - 1]
  }

  function Last(pieces: seq<string>): string
    requires |pieces| >= 1
  {
    pieces[|pieces| - 1]
  }

  /** Splitting a concatenation: the closed pieces of `a` come first, then its
      open last piece continues into `b`. */
  lemma {:induction false} SplitConcat(a: string, b: string, seps: set<char>)
    ensures Split(a + b, seps) == Closed(Split(a, seps)) + Split(Last(Split(a, seps)) + b, seps)
    decreases |a|
  {
    if |a| == 0 {
      assert a + b == b;
    } else {
      SplitConcat(a[1..], b, seps);
      assert a == [a[0]] + a[1..];
      if a[0] in seps {
        SplitConcatSep(a[0], a[1..], b, seps);
      } else {
        SplitConcatStep(a[0], a[1..], b, seps);
      }
    }
  }

  /** The inductive step of SplitConcat for a first character that is a separator. */
  lemma SplitConcatSep(c: char, a: string, b: string, seps: set<char>)
    requires c in seps
    requires Split(a + b, seps) == Closed(Split(a, seps)) + Split(Last(Split(a, seps)) + b, seps)
    ensures Split([c] + a + b, seps) == Closed(Split([c] + a, seps)) + Split(Last(Split([c] + a, seps)) + b, seps)
  {
    SplitSeparatorCons(c, a, seps);
    assert [c] + a + b == [c] + (a + b);
    SplitSeparatorCons(c, a + b, seps);
    ConsParts("", Split(a, seps), Split(Last(Split(a, seps)) + b, seps));
  }

  /** Putting `x` in front of a list of pieces adds it to the closed ones. */
  lemma ConsParts<T>(x: T, t: seq<T>, rest: seq<T>)
    requires |t| >= 1
    ensures ([x] + t)[..|t|] == [x] + t[..|t| - 1] && ([x] + t)[|t|] == t[|t| - 1]
    ensures [x] + (t[..|t| - 1] + rest) == ([x] + t[..|t| - 1]) + rest
  {
  }

  lemma SplitSeparatorCons(c: char, s: string, seps: set<char>)
    requires c in seps
    ensures Split([c] + s, seps) == [""] + Split(s, seps)
  {
    assert ([c] + s)[1..] == s;
  }

  /** The inductive step of SplitConcat for a first character that is not a separator. */
  lemma SplitConcatStep(c: char, a: string, b: string, seps: set<char>)
    requires c !in seps
    requires Split(a + b, seps) == Closed(Split(a, seps)) + Split(Last(Split(a, seps)) + b, seps)
    ensures Split([c] + a + b, seps) == Closed(Split([c] + a, seps)) + Split(Last(Split([c] + a, seps)) + b, seps)
  {
    var tail := Split(a, seps);
    var r := Split(a + b, seps);
    SplitCons(c, a, seps);
    assert [c] + a + b == [c] + (a + b);
    SplitCons(c, a + b, seps);
    assert Split([c] + a + b, seps) == [[c] + r[0]] + r[1..];
    if |tail| == 1 {
      var sa := [[c] + tail[0]];
      assert Split([c] + a, seps) == sa;
      assert r == Split(tail[0] + b, seps);
      assert [c] + tail[0] + b == [c] + (tail[0] + b);
      SplitCons(c, tail[0] + b, seps);
      assert Closed(sa) == [] && Last(sa) == [c] + tail[0];
    } else {
      SplitConcatStepLong(c, tail, r, Split(Last(tail) + b, seps));
      assert Last(Split([c] + a, seps)) == Last(tail);
    }
  }

  lemma SplitConcatStepLong(c: char, tail: seq<string>, r: seq<string>, rest: seq<string>)
    requires |tail| > 1
    requires r == Closed(tail) + rest
    ensures [[c] + r[0]] + r[1..] == Closed([[c] + tail[0]] + tail[1..]) + rest
  {
    var sa := [[c] + tail[0]] + tail[1..];
    assert r[0] == tail[0];
    assert r[1..] == tail[1..|tail| - 1] + rest;
    assert Closed(sa) == [sa[0]] + tail[1..|tail| - 1];
  }

  lemma SplitCons(c: char, s: string, seps: set<char>)
    requires c !in seps
    ensures Split([c] + s, seps) == [[c] + Split(s, seps)[0]] + Split(s, seps)[1..]
  {
    assert ([c] + s)[1..] == s;
  }

  /** No piece of a split contains a separator. */
  lemma {:induction false} SplitPiecesFree(s: string, seps: set<char>, i: nat, k: nat)
    requires i < |Split(s, seps)| && k < |Split(s, seps)[i]|
    ensures Split(s, seps)[i][k] !in seps
    decreases |s|
  {
    var rest := Split(s[1..], seps);
    if s[0] in seps {
      SplitPiecesFree(s[1..], seps, i - 1, k);
    } else if i > 0 {
      SplitPiecesFree(s[1..], seps, i, k);
    } else if k > 0 {
      SplitPiecesFree(s[1..], seps, 0, k - 1);
    }
  }

  /** A string without separators splits into itself alone. */
  lemma {:induction false} SplitNoSeparator(s: string, seps: set<char>)
    requires forall k :: 0 <= k < |s| ==> s[k] !in seps
    ensures Split(s, seps) == [s]
    decreases |s|
  {
    if |s| > 0 {
      SplitNoSeparator(s[1..], seps);
      assert [s[0]] + s[1..] == s;
    }
  }

  /** `xs.join(sep)`. */
  function Join(xs: seq<string>, sep: string): string {
    if |xs| == 0 then ""
    else if |xs| == 1 then xs[0]
    else xs[0] + sep + Join(xs[1..], sep)
  }

  /** Each element of a joined list occurs verbatim in the joined string. */
  lemma {:induction false} JoinContains(xs: seq<string>, sep: string, k: nat)
    requires k < |xs|
    ensures Contains(Join(xs, sep), xs[k])
  {
    if |xs| == 1 {
      ContainsInfix("", xs[0], "");
      assert "" + xs[0] + "" == xs[0];
    } else if k == 0 {
      ContainsInfix("", xs[0], sep + Join(xs[1..], sep));
      assert "" + xs[0] + (sep + Join(xs[1..], sep)) == Join(xs, sep);
    } else {
      JoinContains(xs[1..], sep, k - 1);
      var t := Join(xs[1..], sep);
      ContainsSuffix(xs[0] + sep, t, xs[k]);
    }
  }

  lemma {:induction false} ContainsSuffix(a: string, s: string, t: string)
    requires Contains(s, t)
    ensures Contains(a + s, t)
    decreases |a|
  {
    if |a| > 0 {
      ContainsSuffix(a[1..], s, t);
      assert (a + s)[1..] == a[1..] + s;
    } else {
      assert a + s == s;
    }
  }

  /** Splitting at one separator and joining with it again gives the input back. */
  lemma {:induction false} JoinSplit(s: string, c: char)
    ensures Join(Split(s, {c}), [c]) == s
    decreases |s|
  {
    if |s| > 0 {
      JoinSplit(s[1..], c);
      var rest := Split(s[1..], {c});
      if s[0] == c {
        assert s == [c] + s[1..];
      } else if |rest| == 1 {
        assert s == [s[0]] + rest[0];
      } else {
        assert Join(rest, [c]) == rest[0] + [c] + Join(rest[1..], [c]);
        assert s == [s[0]] + s[1..];
      }
    }
  }

  predicate IsDigit(c: char) {
    '0' <= c <= '9'
  }

  predicate AllDigits(s: string) {
    forall i :: 0 <= i < |s| ==> IsDigit(s[i])
  }

  function DigitChar(d: nat): (c: char)
    requires d < 10
    ensures IsDigit(c)
  {
    ('0' as int + d) as char
  }

  /** The decimal numeral of `n`, as `String(n)` prints it (no leading zeros). */
  function NatToString(n: nat): (r: string)
    ensures |r| >= 1 && AllDigits(r)
    ensures |r| > 1 ==> r[0] != '0'
    ensures n < 10 <==> |r| == 1
  {
    if n < 10 then [DigitChar(n)] else NatToString(n / 10) + [DigitChar(n % 10)]
  }

  /** `parseInt` of a run of decimal digits. */
  function DigitsValue(s: string): nat
    requires AllDigits(s)
  {
    if |s| == 0 then 0 else DigitsValue(s[..|s| - 1]) * 10 + (s[|s| - 1] as int - '0' as int)
  }

  /** Printing a number and reading it back gives the number. */
  lemma {:induction false} DigitsValueOfNatToString(n: nat)
    ensures DigitsValue(NatToString(n)) == n
  {
    if n >= 10 {
      var r := NatToString(n);
      assert r[..|r| - 1] == NatToString(n / 10);
      DigitsValueOfNatToString(n / 10);
    }
  }

  /** The string `s` with every character equal to `from` replaced by `to`. */
  function ReplaceAll(s: string, from: char, to: char): (r: string)
    ensures |r| == |s|
    ensures forall i :: 0 <= i < |s| ==> r[i] == if s[i] == from then to else s[i]
  {
    seq(|s|, i requires 0 <= i < |s| => if s[i] == from then to else s[i])
  }
}
