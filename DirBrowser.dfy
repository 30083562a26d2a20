/** static/js/dirBrowser.js: the fuzzy filter of the directory picker. A
    query matches a name when its characters occur in the name in order,
    ignoring case; the first such occurrence is taken greedily, scored, and
    its characters are wrapped in highlight markup. Fetching the listing
    and opening or closing the dialog are DOM wiring and are not part of
    this model. A `string` here is a sequence of code points, whereas a
    JavaScript string is a sequence of UTF-16 code units; the two agree on
    names without characters above U+FFFF. */
module DirBrowser {
  import opened Text

  // ---------------------------------------------------------------------
  // fuzzyMatch

  /** `ix` places q[qi..] in t at or after position ti: one strictly
      increasing position per query character, each holding that
      character. */
  ghost predicate Embeds(t: string, q: string, qi: nat, ti: nat, ix: seq<nat>) {
    qi <= |q| && |ix| == |q| - qi
    && (forall k :: 0 <= k < |ix| ==> ti <= ix[k] < |t| && t[ix[k]] == q[qi + k])
    && (forall k :: 0 <= k < |ix| - 1 ==> ix[k] < ix[k + 1])
  }

  /** In a strictly increasing list each entry is at least the first one
      plus its distance from it. */
  lemma {:induction false} IncreasingFromFirst(ix: seq<nat>)
    requires forall k :: 0 <= k < |ix| - 1 ==> ix[k] < ix[k + 1]
    ensures forall k :: 0 <= k < |ix| ==> ix[0] + k <= ix[k]
  {
    if |ix| > 1 {
      IncreasingFromFirst(ix[1..]);
      forall k | 1 <= k < |ix|
        ensures ix[0] + k <= ix[k]
      {
        assert ix[1..][k - 1] == ix[k] && ix[1..][0] == ix[1];
      }
    }
  }

  /** q is a subsequence of t. */
  ghost predicate IsSubsequence(t: string, q: string) {
    exists ix :: Embeds(t, q, 0, 0, ix)
  }

  /** The positions the matching loop visits, from text position ti and
      query position qi: each query character is taken at its first
      occurrence after the previous one. */
  function Greedy(t: string, q: string, ti: nat, qi: nat): (r: Option<seq<nat>>)
    requires ti <= |t| && qi <= |q|
    ensures r.Some? ==> |r.value| == |q| - qi
    decreases |t| - ti
  {
    if qi == |q| then Some([])
    else if ti == |t| then None
    else if t[ti] == q[qi] then
      match Greedy(t, q, ti + 1, qi + 1)
      case Some(g) => Some([ti] + g)
      case None => None
    else Greedy(t, q, ti + 1, qi)
  }

  /** What the loop finds is a placement of the query. */
  lemma {:induction false} GreedyEmbeds(t: string, q: string, ti: nat, qi: nat)
    requires ti <= |t| && qi <= |q|
    ensures Greedy(t, q, ti, qi).Some? ==> Embeds(t, q, qi, ti, Greedy(t, q, ti, qi).value)
    decreases |t| - ti
  {
    if qi < |q| && ti < |t| {
      if t[ti] == q[qi] {
        GreedyEmbeds(t, q, ti + 1, qi + 1);
        var rest := Greedy(t, q, ti + 1, qi + 1);
        if rest.Some? {
          var ix := [ti] + rest.value;
          forall k | 1 <= k < |ix|
            ensures ti < ix[k] < |t| && t[ix[k]] == q[qi + k]
          {
            assert ix[k] == rest.value[k - 1];
          }
          forall k | 0 <= k < |ix| - 1
            ensures ix[k] < ix[k + 1]
          {
            assert ix[k + 1] == rest.value[k];
            if k > 0 {
              assert ix[k] == rest.value[k - 1];
            }
          }
          assert Greedy(t, q, ti, qi).value == ix;
        }
      } else {
        GreedyEmbeds(t, q, ti + 1, qi);
      }
    }
  }

  /** The greedy placement is the leftmost one: whenever any placement
      exists, the greedy one exists and lies position by position at or
      before it. */
  lemma {:induction false} GreedyIsLeftmost(t: string, q: string, qi: nat, ti: nat, ix: seq<nat>)
    requires ti <= |t| && Embeds(t, q, qi, ti, ix)
    ensures Greedy(t, q, ti, qi).Some?
    ensures forall k :: 0 <= k < |ix| ==> Greedy(t, q, ti, qi).value[k] <= ix[k]
    decreases |t| - ti
  {
    if qi < |q| {
      assert ti <= ix[0] < |t|;
      if t[ti] == q[qi] {
        var rest := ix[1..];
        IncreasingFromFirst(ix);
        assert Embeds(t, q, qi + 1, ti + 1, rest) by {
          forall k | 0 <= k < |rest|
            ensures ti + 1 <= rest[k] < |t| && t[rest[k]] == q[qi + 1 + k]
          {
            assert rest[k] == ix[k + 1];
          }
          forall k | 0 <= k < |rest| - 1
            ensures rest[k] < rest[k + 1]
          {
            assert rest[k] == ix[k + 1] && rest[k + 1] == ix[k + 2];
          }
        }
        GreedyIsLeftmost(t, q, qi + 1, ti + 1, rest);
        var g := Greedy(t, q, ti + 1, qi + 1).value;
        assert Greedy(t, q, ti, qi).value == [ti] + g;
      } else {
        assert ix[0] != ti;
        IncreasingFromFirst(ix);
        GreedyIsLeftmost(t, q, qi, ti + 1, ix);
      }
    }
  }

  /** The loop fails exactly when the query is not a subsequence. */
  lemma GreedyFindsSubsequence(t: string, q: string)
    ensures Greedy(t, q, 0, 0).Some? <==> IsSubsequence(t, q)
  {
    if IsSubsequence(t, q) {
      var ix :| Embeds(t, q, 0, 0, ix);
      GreedyIsLeftmost(t, q, 0, 0, ix);
    }
    if Greedy(t, q, 0, 0).Some? {
      GreedyEmbeds(t, q, 0, 0);
      assert Embeds(t, q, 0, 0, Greedy(t, q, 0, 0).value);
    }
  }

  /** The raw score: 2 for a character matched at its own position in the
      text, 1 for any other. */
  function Points(ix: seq<nat>, qi: nat): (p: nat)
    ensures |ix| <= p <= 2 * |ix|
  {
    if ix == [] then 0 else (if ix[0] == qi then 2 else 1) + Points(ix[1..], qi + 1)
  }

  lemma {:induction false} PointsAppend(ix: seq<nat>, x: nat, qi: nat)
    ensures Points(ix + [x], qi) == Points(ix, qi) + (if x == qi + |ix| then 2 else 1)
  {
    if ix != [] {
      assert (ix + [x])[1..] == ix[1..] + [x];
      PointsAppend(ix[1..], x, qi + 1);
    }
  }

  lemma GlueStep(indices: seq<nat>, x: nat, rest: Option<seq<nat>>)
    ensures Glue(indices, Glue([x], rest)) == Glue(indices + [x], rest)
  {
    if rest.Some? {
      assert indices + ([x] + rest.value) == indices + [x] + rest.value;
    }
  }

  /** A fuzzy match: the score is points / outOf; indices are the matched
      positions. */
  datatype Match = Match(points: nat, outOf: nat, indices: seq<nat>)

  function Glue(p: seq<nat>, o: Option<seq<nat>>): Option<seq<nat>> {
    match o
    case Some(g) => Some(p + g)
    case None => None
  }

  /** `fuzzyMatch(text, query)`: the empty query matches with score 1;
      otherwise the case-folded query is placed greedily in the case-folded
      text, and there is no match when it does not fit. */
  method FuzzyMatch(text: string, query: string) returns (m: Option<Match>)
    ensures query == [] ==> m == Some(Match(1, 1, []))
    ensures query != [] ==> (m.None? <==> Greedy(Lower(text), Lower(query), 0, 0).None?)
    ensures query != [] && m.Some? ==> (
      m.value.indices == Greedy(Lower(text), Lower(query), 0, 0).value
      && m.value.outOf == |query| && m.value.points == Points(m.value.indices, 0)
      && |query| <= m.value.points <= 2 * |query|)
  {
    if query == [] {
      return Some(Match(1, 1, []));
    }
    var t := Lower(text);
    var q := Lower(query);
    var textIdx, queryIdx, points := 0, 0, 0;
    var indices: seq<nat> := [];
    assert Greedy(t, q, 0, 0).Some? ==> [] + Greedy(t, q, 0, 0).value == Greedy(t, q, 0, 0).value;
    while textIdx < |t| && queryIdx < |q|
      invariant textIdx <= |t| && queryIdx <= |q| && queryIdx == |indices|
      invariant Greedy(t, q, 0, 0) == Glue(indices, Greedy(t, q, textIdx, queryIdx))
      invariant points == Points(indices, 0)
      decreases |t| - textIdx
    {
      if t[textIdx] == q[queryIdx] {
        GlueStep(indices, textIdx, Greedy(t, q, textIdx + 1, queryIdx + 1));
        PointsAppend(indices, textIdx, 0);
        indices := indices + [textIdx];
        points := points + (if textIdx == queryIdx then 2 else 1);
        queryIdx := queryIdx + 1;
      }
      textIdx := textIdx + 1;
    }
    if queryIdx < |q| {
      return None;
    }
    assert indices + [] == indices;
    return Some(Match(points, |q|, indices));
  }

  // ---------------------------------------------------------------------
  // Highlighting

  const OpenTag := "<span class=\"match\">"
  const CloseTag := "</span>"

  /** Positions strictly increasing, each at least `from` and inside `name`. */
  predicate Positions(name: string, ix: seq<nat>, from: nat) {
    (forall k :: 0 <= k < |ix| ==> from <= ix[k] < |name|)
    && (forall k :: 0 <= k < |ix| - 1 ==> ix[k] < ix[k + 1])
  }

  lemma PositionsTail(name: string, ix: seq<nat>, from: nat)
    requires Positions(name, ix, from) && ix != []
    ensures Positions(name, ix[1..], ix[0] + 1)
  {
    IncreasingFromFirst(ix);
    assert forall k :: 0 <= k < |ix[1..]| ==> ix[1..][k] == ix[k + 1];
  }

  /** The highlighted name from position `last` on: the plain text before
      each matched position, then the matched character wrapped in the
      markup. */
  function Marked(name: string, ix: seq<nat>, last: nat): string
    requires last <= |name| && Positions(name, ix, last)
    decreases |ix|
  {
    if ix == [] then name[last..]
    else
      PositionsTail(name, ix, last);
      name[last..ix[0]] + OpenTag + [name[ix[0]]] + CloseTag + Marked(name, ix[1..], ix[0] + 1)
  }

  /** The highlight string built by the `forEach` over the match indices. */
  method Highlight(name: string, indices: seq<nat>) returns (h: string)
    requires Positions(name, indices, 0)
    ensures h == Marked(name, indices, 0)
  {
    h := "";
    var lastIdx := 0;
    for k := 0 to |indices|
      invariant lastIdx <= |name| && Positions(name, indices[k..], lastIdx)
      invariant h + Marked(name, indices[k..], lastIdx) == Marked(name, indices, 0)
    {
      var idx := indices[k];
      assert indices[k..][1..] == indices[k + 1..];
      PositionsTail(name, indices[k..], lastIdx);
      h := h + name[lastIdx..idx] + OpenTag + [name[idx]] + CloseTag;
      lastIdx := idx + 1;
    }
    h := h + name[lastIdx..];
  }

  /** The text of a highlighted name with the markup taken out. */
  function StripTags(s: string): string
    decreases |s|
  {
    if s == [] then []
    else if StartsWith(s, OpenTag) then StripTags(s[|OpenTag|..])
    else if StartsWith(s, CloseTag) then StripTags(s[|CloseTag|..])
    else [s[0]] + StripTags(s[1..])
  }

  predicate NoMarkup(s: string) {
    forall i :: 0 <= i < |s| ==> s[i] != '<'
  }

  /** A text that does not start with '<' loses nothing at its head. */
  lemma StripPlainHead(s: string)
    requires s != [] && s[0] != '<'
    ensures StripTags(s) == [s[0]] + StripTags(s[1..])
  {
    assert OpenTag[0] == '<' && CloseTag[0] == '<';
    if |OpenTag| <= |s| {
      assert s[..|OpenTag|][0] == s[0];
    }
    if |CloseTag| <= |s| {
      assert s[..|CloseTag|][0] == s[0];
    }
  }

  lemma {:induction false} StripPlain(a: string, b: string)
    requires NoMarkup(a)
    ensures StripTags(a + b) == a + StripTags(b)
    decreases |a|
  {
    if a == [] {
      assert a + b == b;
    } else {
      StripPlainStep(a, b);
      StripPlain(a[1..], b);
      ConsAppend(a, StripTags(b));
    }
  }

  lemma ConsAppend(a: string, x: string)
    requires a != []
    ensures [a[0]] + (a[1..] + x) == a + x
  {
    assert a == [a[0]] + a[1..];
  }

  lemma StripPlainStep(a: string, b: string)
    requires a != [] && NoMarkup(a)
    ensures StripTags(a + b) == [a[0]] + StripTags(a[1..] + b)
    ensures NoMarkup(a[1..])
  {
    var s := a + b;
    assert s[0] == a[0] && s[1..] == a[1..] + b;
    StripPlainHead(s);
    NoMarkupSlice(a, 1, |a|);
    assert a[1..|a|] == a[1..];
  }

  lemma StripMarkedChar(c: char, rest: string)
    requires c != '<'
    ensures StripTags(OpenTag + [c] + CloseTag + rest) == [c] + StripTags(rest)
  {
    var s := OpenTag + [c] + CloseTag + rest;
    assert s[..|OpenTag|] == OpenTag;
    assert s[|OpenTag|..] == [c] + (CloseTag + rest);
    StripPlain([c], CloseTag + rest);
    var u := CloseTag + rest;
    assert u[..|CloseTag|] == CloseTag && u[|CloseTag|..] == rest;
    assert OpenTag[1] != CloseTag[1];
    assert !StartsWith(u, OpenTag) by {
      assert u[1] == CloseTag[1];
    }
  }

  lemma MarkedCons(name: string, ix: seq<nat>, last: nat)
    requires last <= |name| && Positions(name, ix, last) && ix != []
    ensures ix[0] + 1 <= |name| && Positions(name, ix[1..], ix[0] + 1)
    ensures Marked(name, ix, last)
      == name[last..ix[0]] + (OpenTag + [name[ix[0]]] + CloseTag + Marked(name, ix[1..], ix[0] + 1))
  {
    PositionsTail(name, ix, last);
  }

  lemma NoMarkupSlice(name: string, lo: nat, hi: nat)
    requires lo <= hi <= |name| && NoMarkup(name)
    ensures NoMarkup(name[lo..hi])
  {
    forall j | 0 <= j < hi - lo
      ensures name[lo..hi][j] != '<'
    {
      assert name[lo..hi][j] == name[lo + j];
    }
  }

  lemma SplitAt(name: string, lo: nat, i: nat)
    requires lo <= i < |name|
    ensures name[lo..] == name[lo..i] + ([name[i]] + name[i + 1..])
  {
  }

  /** Plain text, then one marked character, then a rest that strips to
      `after`. */
  lemma StripAroundMark(before: string, c: char, rest: string, after: string)
    requires NoMarkup(before) && c != '<' && StripTags(rest) == after
    ensures StripTags(before + (OpenTag + [c] + CloseTag + rest)) == before + ([c] + after)
  {
    StripPlain(before, OpenTag + [c] + CloseTag + rest);
    StripMarkedChar(c, rest);
  }

  /** One matched position: the plain text before it, then the marked
      character, then the rest, which strips back by hypothesis. */
  lemma HighlightStep(name: string, ix: seq<nat>, last: nat)
    requires last <= |name| && Positions(name, ix, last) && NoMarkup(name) && ix != []
    requires ix[0] + 1 <= |name| && Positions(name, ix[1..], ix[0] + 1)
    requires StripTags(Marked(name, ix[1..], ix[0] + 1)) == name[ix[0] + 1..]
    ensures StripTags(Marked(name, ix, last)) == name[last..]
  {
    var i := ix[0];
    var rest := Marked(name, ix[1..], i + 1);
    MarkedCons(name, ix, last);
    NoMarkupSlice(name, last, i);
    StripAroundMark(name[last..i], name[i], rest, name[i + 1..]);
    SplitAt(name, last, i);
  }

  /** Taking the markup out of a highlighted name gives the name back, for
      a name that holds no '<' of its own. */
  lemma {:induction false} HighlightStripsToName(name: string, ix: seq<nat>, last: nat)
    requires last <= |name| && Positions(name, ix, last) && NoMarkup(name)
    ensures StripTags(Marked(name, ix, last)) == name[last..]
    decreases |ix|
  {
    if ix == [] {
      StripPlain(name[last..], []);
      assert name[last..] + [] == name[last..];
    } else {
      PositionsTail(name, ix, last);
      HighlightStripsToName(name, ix[1..], ix[0] + 1);
      HighlightStep(name, ix, last);
    }
  }

  // ---------------------------------------------------------------------
  // filterDirectories

  /** JavaScript's white space and line terminators, as `trim` removes them. */
  predicate IsJsSpace(c: char) {
    '\t' <= c <= '\r' || c == ' ' || c == '\U{A0}' || c == '\U{1680}'
    || '\U{2000}' <= c <= '\U{200A}' || c == '\U{2028}' || c == '\U{2029}'
    || c == '\U{202F}' || c == '\U{205F}' || c == '\U{3000}' || c == '\U{FEFF}'
  }

  /** The number of white-space characters `s` starts with. */
  function LeadingSpace(s: string, from: nat): (n: nat)
    requires from <= |s|
    ensures from <= n <= |s| && (n == |s| || !IsJsSpace(s[n]))
    ensures forall k :: from <= k < n ==> IsJsSpace(s[k])
    decreases |s| - from
  {
    if from == |s| || !IsJsSpace(s[from]) then from else LeadingSpace(s, from + 1)
  }

  /** Where the white space that `s[..stop]` ends with begins. */
  function TrailingSpace(s: string, low: nat, stop: nat): (e: nat)
    requires low <= stop <= |s|
    ensures low <= e <= stop && (e == low || !IsJsSpace(s[e - 1]))
    ensures forall k :: e <= k < stop ==> IsJsSpace(s[k])
    decreases stop
  {
    if stop == low || !IsJsSpace(s[stop - 1]) then stop else TrailingSpace(s, low, stop - 1)
  }

  /** `s.trim()`: white space taken off both ends, and nothing else. */
  function Trim(s: string): (r: string)
    ensures r == [] || (!IsJsSpace(r[0]) && !IsJsSpace(r[|r| - 1]))
    ensures var start := LeadingSpace(s, 0); (start + |r| <= |s| && s[start..start + |r|] == r
      && (forall k :: 0 <= k < start ==> IsJsSpace(s[k]))
      && (forall k :: start + |r| <= k < |s| ==> IsJsSpace(s[k])))
  {
    var start := LeadingSpace(s, 0);
    var end := TrailingSpace(s, start, |s|);
    s[start..end]
  }

  /** One entry of the listing: its name, whether it is hidden, and the
      content and `match` class of its name shown. */
  class DirItem {
    const name: string
    var hidden: bool
    var shown: string
    var matchClass: bool

    constructor (name: string)
      ensures this.name == name && !hidden && shown == name && !matchClass
    {
      this.name := name;
      hidden := false;
      shown := name;
      matchClass := false;
    }
  }

  /** The match indices of a name for a non-empty query. */
  function MatchOf(name: string, query: string): (m: Option<seq<nat>>)
    ensures m.Some? ==> Positions(name, m.value, 0)
  {
    GreedyEmbeds(Lower(name), Lower(query), 0, 0);
    Greedy(Lower(name), Lower(query), 0, 0)
  }

  /** The loop body of `filterDirectories` for one entry and a non-empty
      query: the entry is hidden exactly when the query does not fit its
      name, and otherwise shows its name with the match highlighted. */
  method FilterItem(item: DirItem, query: string)
    requires query != []
    modifies item
    ensures item.hidden <==> MatchOf(item.name, query).None?
    ensures MatchOf(item.name, query).Some? ==>
              item.shown == Marked(item.name, MatchOf(item.name, query).value, 0)
    ensures MatchOf(item.name, query).None? ==> item.shown == old(item.shown)
    ensures item.matchClass == old(item.matchClass)
  {
    var result := FuzzyMatch(item.name, query);
    if result.Some? {
      item.hidden := false;
      var indices := result.value.indices;
      if |indices| > 0 {
        assert indices == MatchOf(item.name, query).value;
        var highlighted := Highlight(item.name, indices);
        item.shown := highlighted;
      }
    } else {
      item.hidden := true;
    }
  }

  /** `filterDirectories`: with an empty (trimmed) query every entry is
      shown with its plain name; otherwise an entry is shown with its match
      highlighted when the query fits its name, and hidden when it does
      not. */
  method FilterDirectories(items: seq<DirItem>, rawQuery: string)
    requires Distinct(items)
    modifies set item | item in items
    ensures Trim(rawQuery) == [] ==> forall item :: item in items ==>
      !item.hidden && item.shown == item.name && !item.matchClass
    ensures Trim(rawQuery) != [] ==> forall item :: item in items ==> (
      item.hidden <==> !IsSubsequence(Lower(item.name), Lower(Trim(rawQuery))))
    ensures Trim(rawQuery) != [] ==> forall item :: item in items ==> (
      (MatchOf(item.name, Trim(rawQuery)).Some? ==>
        item.shown == Marked(item.name, MatchOf(item.name, Trim(rawQuery)).value, 0))
      && (MatchOf(item.name, Trim(rawQuery)).None? ==> item.shown == old(item.shown))
      && item.matchClass == old(item.matchClass))
  {
    var query := Trim(rawQuery);
    for i := 0 to |items|
      invariant forall j :: i <= j < |items| ==> (
        items[j].hidden == old(items[j].hidden) && items[j].shown == old(items[j].shown)
        && items[j].matchClass == old(items[j].matchClass))
      invariant query == [] ==> forall j :: 0 <= j < i ==>
        !items[j].hidden && items[j].shown == items[j].name && !items[j].matchClass
      invariant query != [] ==> forall j :: 0 <= j < i ==> (
        (items[j].hidden <==> MatchOf(items[j].name, query).None?)
        && (MatchOf(items[j].name, query).Some? ==> items[j].shown == Marked(items[j].name, MatchOf(items[j].name, query).value, 0))
        && (MatchOf(items[j].name, query).None? ==> items[j].shown == old(items[j].shown))
        && items[j].matchClass == old(items[j].matchClass))
    {
      var item := items[i];
      if query == [] {
        item.hidden := false;
        item.shown := item.name;
        item.matchClass := false;
      } else {
        FilterItem(item, query);
      }
    }
    forall item | item in items
      ensures query != [] ==> (item.hidden <==> !IsSubsequence(Lower(item.name), Lower(query)))
    {
      GreedyFindsSubsequence(Lower(item.name), Lower(query));
    }
  }
}
