/** Building blocks for the fixed regular expressions of the source, written
    as explicit string predicates instead of a regex engine.

    Every pattern in the source is a chain of literals joined by `\d+`, `\s+`
    or `\s*`, where each class is followed by a character outside it (a digit
    run by a space, a space run by a letter). For such a chain the greedy
    choice is the only one that can succeed, so a match attempt at a fixed
    start is deterministic; `NumberThenIsGreedy` proves this for `(\d+)\s+w`.
    A lazy `.*?` becomes "the first later position, on the same line, at which
    the rest matches", and `re.search` becomes "the leftmost start". */
module Scan {
  import opened Text

  /** End of the longest run of characters of class `cls` starting at `i`. */
  function RunEnd(s: string, i: nat, cls: char -> bool): (e: nat)
    requires i <= |s|
    ensures i <= e <= |s|
    ensures forall k {:trigger cls(s[k])} :: i <= k < e ==> cls(s[k])
    ensures e == |s| || !cls(s[e])
    decreases |s| - i
  {
    if i < |s| && cls(s[i]) then RunEnd(s, i + 1, cls) else i
  }

  /** The run ends at the first position outside the class. */
  lemma {:induction false} RunEndIs(s: string, i: nat, e: nat, cls: char -> bool)
    requires i <= e <= |s|
    requires forall k :: i <= k < e ==> cls(s[k])
    requires e == |s| || !cls(s[e])
    ensures RunEnd(s, i, cls) == e
    decreases e - i
  {
    if i < e {
      RunEndIs(s, i + 1, e, cls);
    }
  }

  /** `\b` at position i (ASCII word characters). */
  predicate WordBoundary(s: string, i: nat)
    requires i <= |s|
  {
    (i > 0 && IsWordChar(s[i - 1])) != (i < |s| && IsWordChar(s[i]))
  }

  /** Python's `$` without MULTILINE: the end, or just before a final newline. */
  predicate EndAnchor(s: string, i: nat) {
    i == |s| || (i + 1 == |s| && s[i] == '\n')
  }

  predicate AllSpace(s: string) {
    forall k :: 0 <= k < |s| ==> IsSpace(s[k])
  }

  predicate NotNewline(c: char) {
    c != '\n'
  }

  /** Where the current line ends: `.` in a pattern cannot cross this point. */
  function LineEnd(s: string, p: nat): (e: nat)
    requires p <= |s|
    ensures p <= e <= |s|
  {
    RunEnd(s, p, NotNewline)
  }

  datatype NumMatch = NumMatch(start: nat, value: nat, end: nat)

  /** `(\d+)\s+word` tried at start `i`: the captured number and the end of `word`. */
  function NumberThen(s: string, i: nat, word: string): (m: Option<NumMatch>)
    requires i <= |s|
    ensures m.Some? ==> m.value.start == i < m.value.end <= |s|
    ensures m.Some? ==> i < |s| && IsDigit(s[i])
  {
    var d := RunEnd(s, i, IsDigit);
    var w := RunEnd(s, d, IsSpace);
    if i < d && d < w && OccursAt(s, word, w) && word != [] then
      Some(NumMatch(i, DigitsValue(s[i..d]), w + |word|))
    else
      None
  }

  /** The greedy attempt succeeds exactly when the pattern has any match at
      `i` at all (for any split into digits, spaces and the word), and then
      it captures the same number: greedy and backtracking agree. */
  lemma NumberThenIsGreedy(s: string, i: nat, word: string, d: nat, w: nat)
    requires i <= |s| && word != [] && !IsSpace(word[0]) && !IsDigit(word[0])
    requires i < d < w <= |s|
    requires AllDigits(s[i..d]) && AllSpace(s[d..w]) && OccursAt(s, word, w)
    ensures NumberThen(s, i, word) == Some(NumMatch(i, DigitsValue(s[i..d]), w + |word|))
  {
    assert forall k :: i <= k < d ==> IsDigit(s[k]) by {
      forall k | i <= k < d ensures IsDigit(s[k]) { assert s[i..d][k - i] == s[k]; }
    }
    assert forall k :: d <= k < w ==> IsSpace(s[k]) by {
      forall k | d <= k < w ensures IsSpace(s[k]) { assert s[d..w][k - d] == s[k]; }
    }
    assert IsSpace(s[d]) && !IsDigit(s[d]);
    RunEndIs(s, i, d, IsDigit);
    assert s[w] == word[0];
    RunEndIs(s, d, w, IsSpace);
  }

  /** Digits, then spaces, then a character that does not start the word:
      no match at i. */
  lemma NumberThenMisses(s: string, i: nat, word: string, d: nat, w: nat)
    requires i < d < w < |s| && word != []
    requires forall k :: i <= k < d ==> IsDigit(s[k])
    requires !IsDigit(s[d])
    requires forall k :: d <= k < w ==> IsSpace(s[k])
    requires !IsSpace(s[w]) && s[w] != word[0]
    ensures NumberThen(s, i, word).None?
  {
    RunEndIs(s, i, d, IsDigit);
    RunEndIs(s, d, w, IsSpace);
    assert w + |word| <= |s| ==> s[w..w + |word|][0] == s[w];
  }

  /** A match of the greedy attempt is a match of the pattern: digits, then
      spaces, then the word. */
  lemma NumberThenSound(s: string, i: nat, word: string)
    requires i <= |s| && NumberThen(s, i, word).Some?
    ensures var d := RunEnd(s, i, IsDigit);
            var w := RunEnd(s, d, IsSpace);
            i < d < w && AllDigits(s[i..d]) && AllSpace(s[d..w]) && OccursAt(s, word, w)
            && NumberThen(s, i, word).value == NumMatch(i, DigitsValue(s[i..d]), w + |word|)
  {
  }

  /** `re.search(r"(\d+)\s+word", s)` restricted to starts >= from: the
      leftmost start at which the pattern matches. */
  function FirstNumberThen(s: string, from: nat, word: string): (m: Option<NumMatch>)
    requires from <= |s|
    decreases |s| - from
  {
    var here := NumberThen(s, from, word);
    if here.Some? then here
    else if from == |s| then None
    else FirstNumberThen(s, from + 1, word)
  }

  /** `re.search`: the match found is at the leftmost start where the
      pattern matches, and nothing is found only when no start matches. */
  lemma FirstNumberThenIsLeftmost(s: string, from: nat, word: string)
    requires from <= |s|
    ensures FirstNumberThen(s, from, word).None? ==>
            forall j :: from <= j <= |s| ==> NumberThen(s, j, word).None?
    ensures var m := FirstNumberThen(s, from, word);
            m.Some? ==> from <= m.value.start <= |s| && NumberThen(s, m.value.start, word) == m
    ensures var m := FirstNumberThen(s, from, word);
            m.Some? ==> forall j :: from <= j < m.value.start ==> NumberThen(s, j, word).None?
  {
    FirstNumberThenFound(s, from, word);
    FirstNumberThenNoneBefore(s, from, word);
    FirstNumberThenMissing(s, from, word);
  }

  lemma {:induction false} FirstNumberThenFound(s: string, from: nat, word: string)
    requires from <= |s|
    ensures var m := FirstNumberThen(s, from, word);
            m.Some? ==> from <= m.value.start <= |s| && NumberThen(s, m.value.start, word) == m
    decreases |s| - from
  {
    if NumberThen(s, from, word).None? && from < |s| {
      FirstNumberThenFound(s, from + 1, word);
    }
  }

  lemma {:induction false} FirstNumberThenNoneBefore(s: string, from: nat, word: string)
    requires from <= |s|
    ensures var m := FirstNumberThen(s, from, word);
            m.Some? ==> forall j :: from <= j < m.value.start && j <= |s| ==> NumberThen(s, j, word).None?
    decreases |s| - from
  {
    if NumberThen(s, from, word).None? && from < |s| {
      FirstNumberThenNoneBefore(s, from + 1, word);
    }
  }

  lemma {:induction false} FirstNumberThenMissing(s: string, from: nat, word: string)
    requires from <= |s|
    ensures FirstNumberThen(s, from, word).None? ==>
            forall j :: from <= j <= |s| ==> NumberThen(s, j, word).None?
    decreases |s| - from
  {
    if NumberThen(s, from, word).None? && from < |s| {
      FirstNumberThenMissing(s, from + 1, word);
    }
  }


  /** Starts at which the pattern does not match are passed over. */
  lemma {:induction false} FirstNumberThenSkip(s: string, from: nat, k: nat, word: string)
    requires from <= k <= |s|
    requires forall j :: from <= j < k ==> NumberThen(s, j, word).None?
    ensures FirstNumberThen(s, from, word) == FirstNumberThen(s, k, word)
    decreases k - from
  {
    if from < k {
      FirstNumberThenSkip(s, from + 1, k, word);
    }
  }

  /** `.*?(\d+)\s+word` from position p: the first position j >= p on the
      same line at which `(\d+)\s+word` matches. */
  function LazyNumberThen(s: string, p: nat, word: string): (m: Option<NumMatch>)
    requires p <= |s|
    ensures m.Some? ==> p <= m.value.start <= |s|
    decreases |s| - p
  {
    var here := NumberThen(s, p, word);
    if here.Some? then here
    else if p == |s| || s[p] == '\n' then None
    else LazyNumberThen(s, p + 1, word)
  }

  /** The lazy search finds the first start on the line at which the pattern
      matches, and finds nothing only when no start up to the line end matches. */
  lemma LazyNumberThenIsFirstOnLine(s: string, p: nat, word: string)
    requires p <= |s|
    ensures var m := LazyNumberThen(s, p, word);
            m.Some? ==> p <= m.value.start <= LineEnd(s, p) && NumberThen(s, m.value.start, word) == m
    ensures var m := LazyNumberThen(s, p, word);
            m.Some? ==> forall j :: p <= j < m.value.start ==> NumberThen(s, j, word).None?
    ensures LazyNumberThen(s, p, word).None? ==>
            forall j :: p <= j <= LineEnd(s, p) ==> NumberThen(s, j, word).None?
  {
    LazyNumberThenFound(s, p, word);
    LazyNumberThenNoneBefore(s, p, word);
    LazyNumberThenMissing(s, p, word);
  }

  lemma {:induction false} LazyNumberThenFound(s: string, p: nat, word: string)
    requires p <= |s|
    ensures var m := LazyNumberThen(s, p, word);
            m.Some? ==> p <= m.value.start <= LineEnd(s, p) && NumberThen(s, m.value.start, word) == m
    decreases |s| - p
  {
    if NumberThen(s, p, word).None? && p < |s| && s[p] != '\n' {
      LazyNumberThenFound(s, p + 1, word);
      assert LineEnd(s, p) == LineEnd(s, p + 1);
    }
  }

  lemma {:induction false} LazyNumberThenNoneBefore(s: string, p: nat, word: string)
    requires p <= |s|
    ensures var m := LazyNumberThen(s, p, word);
            m.Some? ==> forall j :: p <= j < m.value.start ==> NumberThen(s, j, word).None?
    decreases |s| - p
  {
    if NumberThen(s, p, word).None? && p < |s| && s[p] != '\n' {
      LazyNumberThenNoneBefore(s, p + 1, word);
    }
  }

  lemma {:induction false} LazyNumberThenMissing(s: string, p: nat, word: string)
    requires p <= |s|
    ensures LazyNumberThen(s, p, word).None? ==>
            forall j :: p <= j <= LineEnd(s, p) ==> NumberThen(s, j, word).None?
    decreases |s| - p
  {
    if NumberThen(s, p, word).None? && p < |s| && s[p] != '\n' {
      LazyNumberThenMissing(s, p + 1, word);
      assert LineEnd(s, p) == LineEnd(s, p + 1);
    }
  }


  /** Where the words, joined by runs of white space, end when they start at i. */
  function PhraseEnd(s: string, i: nat, words: seq<string>): (e: Option<nat>)
    requires i <= |s|
    ensures e.Some? ==> i <= e.value <= |s|
    decreases |words|
  {
    if words == [] then Some(i)
    else if !OccursAt(s, words[0], i) then None
    else if |words| == 1 then Some(i + |words[0]|)
    else
      var gap := i + |words[0]|;
      var next := RunEnd(s, gap, IsSpace);
      if next == gap then None else PhraseEnd(s, next, words[1..])
  }
}
