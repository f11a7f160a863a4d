/** The list edits shared by the form handlers: adding a trimmed entry once,
    removing by equality, and toggling an entry under a size cap. */
module Lists {
  import opened Text

  predicate NoDuplicates<T(==)>(xs: seq<T>) {
    forall i, j :: 0 <= i < j < |xs| ==> xs[i] != xs[j]
  }

  /** `a` is `b` with some elements left out, the rest in their order. */
  predicate IsSubsequence<T(==)>(a: seq<T>, b: seq<T>)
    decreases |b|
  {
    a == [] || (|b| > 0 && if a[0] == b[0] then IsSubsequence(a[1..], b[1..]) else IsSubsequence(a, b[1..]))
  }

  lemma {:induction false} SubsequenceRefl<T>(a: seq<T>)
    ensures IsSubsequence(a, a)
    decreases |a|
  {
    if a != [] {
      SubsequenceRefl(a[1..]);
    }
  }

  /** `xs.filter(y => y !== x)`. */
  function RemoveAll<T(==)>(xs: seq<T>, x: T): (r: seq<T>)
    ensures multiset(r) == multiset(xs)[x := 0]
    ensures IsSubsequence(r, xs)
    ensures x !in xs ==> r == xs
  {
    if xs == [] then []
    else
      var rest := RemoveAll(xs[1..], x);
      assert xs == [xs[0]] + xs[1..];
      if xs[0] == x then
        assert IsSubsequence(rest, xs) by { SkipHead(rest, xs); }
        rest
      else
        assert ([xs[0]] + rest)[1..] == rest;
        [xs[0]] + rest
  }

  lemma SkipHead<T>(a: seq<T>, b: seq<T>)
    requires |b| > 0 && IsSubsequence(a, b[1..])
    ensures IsSubsequence(a, b)
    decreases |b|, 1
  {
    if a != [] && a[0] == b[0] {
      SubsequenceTail(a, b[1..]);
    }
  }

  /** Dropping the head of a subsequence keeps it a subsequence. */
  lemma {:induction false} SubsequenceTail<T>(a: seq<T>, b: seq<T>)
    requires a != [] && IsSubsequence(a, b)
    ensures IsSubsequence(a[1..], b)
    decreases |b|, 2
  {
    if a[0] == b[0] {
      if a[1..] != [] { SkipHead(a[1..], b); }
    } else {
      SubsequenceTail(a, b[1..]);
      if a[1..] != [] { SkipHead(a[1..], b); }
    }
  }

  /** Being a subsequence is transitive. */
  lemma {:induction false} SubsequenceTransitive<T>(a: seq<T>, b: seq<T>, c: seq<T>)
    requires IsSubsequence(a, b) && IsSubsequence(b, c)
    ensures IsSubsequence(a, c)
    decreases |c|
  {
    if a != [] {
      if b[0] == c[0] {
        if a[0] == b[0] {
          SubsequenceTransitive(a[1..], b[1..], c[1..]);
        } else {
          SubsequenceTransitive(a, b[1..], c[1..]);
          SkipHead(a, c);
        }
      } else {
        SubsequenceTransitive(a, b, c[1..]);
        SkipHead(a, c);
      }
    }
  }

  /** A prefix is a subsequence. */
  lemma {:induction false} PrefixSubsequence<T>(xs: seq<T>, n: nat)
    requires n <= |xs|
    ensures IsSubsequence(xs[..n], xs)
  {
    if n > 0 {
      assert xs[..n][1..] == xs[1..][..n - 1];
      PrefixSubsequence(xs[1..], n - 1);
    }
  }

  /** An entry survives removal exactly when it was there and differs from the removed one. */
  lemma RemoveAllMembers<T>(xs: seq<T>, x: T, y: T)
    ensures y in RemoveAll(xs, x) <==> y in xs && y != x
  {
    var r := RemoveAll(xs, x);
    assert y in r <==> y in multiset(r);
    assert y in xs <==> y in multiset(xs);
  }

  /** Removing by equality keeps a duplicate-free list duplicate-free. */
  lemma {:induction false} RemoveAllNoDuplicates<T>(xs: seq<T>, x: T)
    requires NoDuplicates(xs)
    ensures NoDuplicates(RemoveAll(xs, x))
  {
    if xs != [] {
      RemoveAllNoDuplicates(xs[1..], x);
      var rest := RemoveAll(xs[1..], x);
      if xs[0] != x {
        RemoveAllMembers(xs[1..], x, xs[0]);
        assert xs[0] !in rest;
      }
    }
  }

  /** The new list and input text after the "add" button. */
  datatype Added = Added(items: seq<string>, input: string)

  /** The handlers `handleAddSkill` and `addTag`: the trimmed input is
      appended, and the input cleared, exactly when it is non-empty and not
      already in the list; otherwise nothing changes. */
  function AddTrimmed(items: seq<string>, input: string): (r: Added)
    ensures r.items != items <==> Trim(input) != "" && Trim(input) !in items
    ensures r.items != items ==> r.items == items + [Trim(input)] && r.input == ""
    ensures r.items == items ==> r.input == input
  {
    var t := Trim(input);
    if t != "" && t !in items then
      assert (items + [t])[|items|] == t;
      Added(items + [t], "")
    else Added(items, input)
  }

  /** Every entry non-empty and trimmed, and no entry twice. */
  predicate IsCleanList(items: seq<string>) {
    && NoDuplicates(items)
    && forall i :: 0 <= i < |items| ==> items[i] != "" && IsTrimmed(items[i])
  }

  lemma AddTrimmedKeepsClean(items: seq<string>, input: string)
    requires IsCleanList(items)
    ensures IsCleanList(AddTrimmed(items, input).items)
  {
    var r := AddTrimmed(items, input).items;
    if r != items {
      var t := Trim(input);
      AppendFresh(items, t);
      forall i | 0 <= i < |r| ensures r[i] != "" && IsTrimmed(r[i]) {
        if i < |items| {
          assert r[i] == items[i];
        } else {
          assert r[i] == t;
        }
      }
    }
  }

  lemma AddTrimmedKeepsNoDuplicates(items: seq<string>, input: string)
    requires NoDuplicates(items)
    ensures NoDuplicates(AddTrimmed(items, input).items)
  {
    if AddTrimmed(items, input).items != items {
      AppendFresh(items, Trim(input));
    }
  }

  /** Appending an element not yet present keeps the list duplicate-free. */
  lemma AppendFresh<T>(xs: seq<T>, x: T)
    requires NoDuplicates(xs) && x !in xs
    ensures NoDuplicates(xs + [x])
  {
    var r := xs + [x];
    forall i, j | 0 <= i < j < |r| ensures r[i] != r[j] {
      assert r[i] == xs[i];
    }
  }

  lemma RemoveAllKeepsClean(items: seq<string>, x: string)
    requires IsCleanList(items)
    ensures IsCleanList(RemoveAll(items, x))
  {
    RemoveAllNoDuplicates(items, x);
    var r := RemoveAll(items, x);
    forall i | 0 <= i < |r| ensures r[i] != "" && IsTrimmed(r[i]) {
      RemoveAllMembers(items, x, r[i]);
    }
  }

  /** A selection toggle under a cap: a selected entry is removed; an
      unselected one is added at the end only while fewer than `cap` are selected. */
  function ToggleCapped<T(==)>(items: seq<T>, x: T, cap: nat): (r: seq<T>)
    ensures x in items ==> r == RemoveAll(items, x)
    ensures x !in items ==> r == if |items| < cap then items + [x] else items
    ensures x in r <==> x !in items && |items| < cap
  {
    if x in items then
      RemoveAllMembers(items, x, x);
      RemoveAll(items, x)
    else if |items| < cap then
      assert (items + [x])[|items|] == x;
      items + [x]
    else items
  }

  /** A duplicate-free selection of at most `cap` entries stays so under toggling. */
  lemma ToggleCappedKeepsBound<T>(items: seq<T>, x: T, cap: nat)
    requires NoDuplicates(items) && |items| <= cap
    ensures NoDuplicates(ToggleCapped(items, x, cap)) && |ToggleCapped(items, x, cap)| <= cap
  {
    if x in items {
      RemoveAllNoDuplicates(items, x);
      SubsequenceLength(RemoveAll(items, x), items);
    }
  }

  lemma {:induction false} SubsequenceLength<T>(a: seq<T>, b: seq<T>)
    requires IsSubsequence(a, b)
    ensures |a| <= |b|
    decreases |b|
  {
    if a != [] {
      if a[0] == b[0] { SubsequenceLength(a[1..], b[1..]); } else { SubsequenceLength(a, b[1..]); }
    }
  }
  /** `xs.filter(p)`: the elements that satisfy `p`, each as often as in
      `xs`, in their order. */
  function Filter<T(==,!new)>(xs: seq<T>, p: T -> bool): (r: seq<T>)
    ensures IsSubsequence(r, xs)
    ensures forall k :: 0 <= k < |r| ==> p(r[k])
    ensures forall x :: multiset(r)[x] == if p(x) then multiset(xs)[x] else 0
  {
    if xs == [] then []
    else
      var rest := Filter(xs[1..], p);
      assert xs == [xs[0]] + xs[1..];
      if p(xs[0]) then
        assert ([xs[0]] + rest)[1..] == rest;
        [xs[0]] + rest
      else
        assert IsSubsequence(rest, xs) by { SkipHead(rest, xs); }
        rest
  }

  /** A filter that every element passes keeps the whole list. */
  lemma {:induction false} FilterAll<T(!new)>(xs: seq<T>, p: T -> bool)
    requires forall k :: 0 <= k < |xs| ==> p(xs[k])
    ensures Filter(xs, p) == xs
  {
    if xs != [] {
      FilterAll(xs[1..], p);
      assert xs == [xs[0]] + xs[1..];
    }
  }

  /** Filters by two tests that agree on every element give the same list. */
  lemma {:induction false} FilterAgree<T(!new)>(xs: seq<T>, p: T -> bool, q: T -> bool)
    requires forall k :: 0 <= k < |xs| ==> p(xs[k]) == q(xs[k])
    ensures Filter(xs, p) == Filter(xs, q)
  {
    if xs != [] {
      FilterAgree(xs[1..], p, q);
    }
  }

  /** One step of a filter: the head, if it passes, then the filtered tail. */
  lemma FilterCons<T(!new)>(xs: seq<T>, p: T -> bool)
    requires xs != []
    ensures Filter(xs, p) == (if p(xs[0]) then [xs[0]] else []) + Filter(xs[1..], p)
  {
  }

  /** A filter that only the element at `i` fails drops exactly that element. */
  lemma {:induction false} FilterDropsOne<T(!new)>(xs: seq<T>, p: T -> bool, i: nat)
    requires i < |xs| && !p(xs[i])
    requires forall k :: 0 <= k < |xs| && k != i ==> p(xs[k])
    ensures Filter(xs, p) == xs[..i] + xs[i + 1..]
    decreases i
  {
    FilterCons(xs, p);
    var tail := xs[1..];
    if i == 0 {
      FilterAll(tail, p);
    } else {
      assert p(xs[0]);
      forall k | 0 <= k < |tail| && k != i - 1
        ensures p(tail[k])
      {
        assert tail[k] == xs[k + 1];
      }
      assert tail[i - 1] == xs[i];
      FilterDropsOne(tail, p, i - 1);
      ConsSplice(xs, i);
    }
  }

  lemma ConsSplice<T>(xs: seq<T>, i: nat)
    requires 0 < i < |xs|
    ensures [xs[0]] + (xs[1..][..i - 1] + xs[1..][i..]) == xs[..i] + xs[i + 1..]
  {
    assert xs[..i] == [xs[0]] + xs[1..][..i - 1];
    assert xs[i + 1..] == xs[1..][i..];
  }

  /** Appending two elements one by one is appending the pair. */
  lemma AppendTwo<T>(xs: seq<T>, a: T, b: T)
    ensures xs + [a] + [b] == xs + [a, b]
  {
  }
}
