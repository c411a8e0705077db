/**
 * Where an excerpt is cut, said over the words of the text and the query's terms
 * (packages/python/src/cci/relevance.py).
 */
module Excerpts {
  import opened Wrappers
  import opened Sequences
  import opened Relevance

  /** A whole word of the text whose key is one of the terms. */
  ghost predicate IsHit(lex: Lexicon, text: string, terms: seq<string>, s: Span) {
    Run(lex, text, s) && lex.key(text[s.start..s.end]) in terms
  }

  /** The terms whose words lie between two places of the text. */
  ghost function TermsBetween(lex: Lexicon, text: string, terms: seq<string>, a: nat, b: nat): set<string>
    requires b <= |text|
  {
    set x: nat, y: nat | a <= x < y <= b && IsHit(lex, text, terms, Span(x, y)) :: lex.key(text[x..y])
  }

  lemma BetweenHas(lex: Lexicon, text: string, terms: seq<string>, a: nat, b: nat, s: Span)
    requires b <= |text| && IsHit(lex, text, terms, s) && a <= s.start && s.end <= b
    ensures lex.key(text[s.start..s.end]) in TermsBetween(lex, text, terms, a, b)
  {
    assert IsHit(lex, text, terms, Span(s.start, s.end));
  }

  lemma BetweenFrom(lex: Lexicon, text: string, terms: seq<string>, a: nat, b: nat, k: string) returns (s: Span)
    requires b <= |text| && k in TermsBetween(lex, text, terms, a, b)
    ensures IsHit(lex, text, terms, s) && a <= s.start && s.end <= b && lex.key(text[s.start..s.end]) == k
  {
    var x: nat, y: nat :| a <= x < y <= b && IsHit(lex, text, terms, Span(x, y)) && lex.key(text[x..y]) == k;
    s := Span(x, y);
  }

  // ---------------------------------------------------------------- the matches are the hits

  lemma {:induction false} MatchingHasAll(lex: Lexicon, text: string, words: seq<Span>, wanted: set<string>, s: Span)
    requires InText(text, words) && s in words && KeyOf(lex, text, s) in wanted
    ensures Match(s.start, s.end, KeyOf(lex, text, s)) in Matching(lex, text, words, wanted)
  {
    var init, last := words[..|words|-1], words[|words|-1];
    assert words == init + [last];
    MatchingLast(lex, text, words, wanted);
    hide Matching;
    if s in init { MatchingHasAll(lex, text, init, wanted, s); }
  }

  /** The matches are exactly the hits, in order. */
  lemma MatchesExact(lex: Lexicon, text: string, terms: seq<string>)
    ensures var ms := MatchesOf(lex, text, Elements(terms));
            && Ascending(ms) && InSpan(text, ms)
            && (forall m :: m in ms ==>
                  IsHit(lex, text, terms, Span(m.start, m.end)) && m.key == lex.key(text[m.start..m.end]))
            && (forall s :: IsHit(lex, text, terms, s) ==> Match(s.start, s.end, lex.key(text[s.start..s.end])) in ms)
  {
    var wanted := Elements(terms);
    MatchesFacts(lex, text, wanted);
    WordsAreRuns(lex, text);
    var ms := MatchesOf(lex, text, wanted);
    hide Words, Matching, Ascending, InSpan, Run;
    forall s | IsHit(lex, text, terms, s) ensures Match(s.start, s.end, lex.key(text[s.start..s.end])) in ms {
      assert s in Words(lex, text);
      MatchingHasAll(lex, text, Words(lex, text), wanted, s);
    }
    forall m | m in ms ensures IsHit(lex, text, terms, Span(m.start, m.end)) && m.key == lex.key(text[m.start..m.end]) {
      assert Marks(lex, text, wanted, m);
    }
  }

  /** The matches are those of the text. */
  ghost predicate AreHits(lex: Lexicon, text: string, terms: seq<string>, ms: seq<Match>) {
    && Ascending(ms) && InSpan(text, ms)
    && (forall i :: 0 <= i < |ms| ==> IsMatchOf(lex, text, terms, ms[i]))
    && (forall s :: IsHit(lex, text, terms, s) ==>
          exists i :: 0 <= i < |ms| && ms[i].start == s.start && ms[i].end == s.end)
  }

  ghost predicate IsMatchOf(lex: Lexicon, text: string, terms: seq<string>, m: Match) {
    m.start <= m.end <= |text| && IsHit(lex, text, terms, Span(m.start, m.end))
      && m.key == lex.key(text[m.start..m.end])
  }

  lemma MatchesAreHits(lex: Lexicon, text: string, terms: seq<string>)
    ensures AreHits(lex, text, terms, MatchesOf(lex, text, Elements(terms)))
  {
    MatchesExact(lex, text, terms);
    var ms := MatchesOf(lex, text, Elements(terms));
    hide MatchesOf, IsHit, Ascending;
    forall i | 0 <= i < |ms| ensures IsMatchOf(lex, text, terms, ms[i]) { assert ms[i] in ms; }
    forall s | IsHit(lex, text, terms, s)
      ensures exists i :: 0 <= i < |ms| && ms[i].start == s.start && ms[i].end == s.end
    {
      var i :| 0 <= i < |ms| && ms[i] == Match(s.start, s.end, lex.key(text[s.start..s.end]));
      assert ms[i].start == s.start;
    }
  }

  /** The score of a group counts the terms between its ends. */
  lemma ScoreIs(lex: Lexicon, text: string, terms: seq<string>, ms: seq<Match>, g: Group)
    requires AreHits(lex, text, terms, ms) && g.first <= g.last < |ms|
    ensures ms[g.last].end <= |text|
    ensures Score(ms, g) == |TermsBetween(lex, text, terms, ms[g.first].start, ms[g.last].end)|
  {
    hide *;
    HitsAscend(lex, text, terms, ms);
    NextApart(ms, g);
    EndInText(text, ms, g.last);
    ScoreAndRelevance(lex, text, terms, ms, g);
    KeysAre(lex, text, terms, ms, g.first, g.last, ms[g.first].start, ms[g.last].end);
  }

  lemma HitsAscend(lex: Lexicon, text: string, terms: seq<string>, ms: seq<Match>)
    requires AreHits(lex, text, terms, ms)
    ensures Ascending(ms) && InSpan(text, ms)
  {
    hide IsHit;
  }

  lemma EndInText(text: string, ms: seq<Match>, i: nat)
    requires InSpan(text, ms) && i < |ms|
    ensures ms[i].end <= |text|
  {}

  lemma NextApart(ms: seq<Match>, g: Group)
    requires Ascending(ms) && g.first <= g.last < |ms|
    ensures (g.first > 0 ==> ms[g.first-1].start < ms[g.first].start)
            && (g.last + 1 < |ms| ==> ms[g.last].end < ms[g.last+1].end)
  {}

  /** Between two places lie exactly the matches that begin after the one and end before the other. */
  lemma KeysAre(lex: Lexicon, text: string, terms: seq<string>, ms: seq<Match>, first: nat, last: nat, a: nat, b: nat)
    requires AreHits(lex, text, terms, ms) && first <= last < |ms| && a <= ms[first].start
             && ms[last].end <= b <= |text|
    requires (first > 0 ==> ms[first-1].start < a) && (last + 1 < |ms| ==> b < ms[last+1].end)
    ensures KeysIn(ms, first, last + 1) == TermsBetween(lex, text, terms, a, b)
  {
    var keys, between := KeysIn(ms, first, last + 1), TermsBetween(lex, text, terms, a, b);
    hide *;
    forall k ensures k in keys <==> k in between {
      if k in keys { KeyIsBetween(lex, text, terms, ms, first, last, a, b, k); }
      if k in between { BetweenIsKey(lex, text, terms, ms, first, last, a, b, k); }
    }
  }

  lemma KeyIsBetween(lex: Lexicon, text: string, terms: seq<string>, ms: seq<Match>, first: nat, last: nat, a: nat,
                     b: nat, k: string)
    requires AreHits(lex, text, terms, ms) && first <= last < |ms| && a <= ms[first].start
             && ms[last].end <= b <= |text|
    requires k in KeysIn(ms, first, last + 1)
    ensures k in TermsBetween(lex, text, terms, a, b)
  {
    hide TermsBetween, IsHit;
    var i :| first <= i <= last && ms[i].key == k;
    assert IsMatchOf(lex, text, terms, ms[i]);
    Inside(ms, first, last, i);
    BetweenHas(lex, text, terms, a, b, Span(ms[i].start, ms[i].end));
  }

  lemma Inside(ms: seq<Match>, first: nat, last: nat, i: nat)
    requires Ascending(ms) && first <= i <= last < |ms|
    ensures ms[first].start <= ms[i].start && ms[i].end <= ms[last].end
  {}

  lemma BetweenIsKey(lex: Lexicon, text: string, terms: seq<string>, ms: seq<Match>, first: nat, last: nat, a: nat,
                     b: nat, k: string)
    requires AreHits(lex, text, terms, ms) && first <= last < |ms| && b <= |text|
    requires (first > 0 ==> ms[first-1].start < a) && (last + 1 < |ms| ==> b < ms[last+1].end)
    requires k in TermsBetween(lex, text, terms, a, b)
    ensures k in KeysIn(ms, first, last + 1)
  {
    var s := BetweenFrom(lex, text, terms, a, b, k);
    hide TermsBetween, IsHit;
    var i: nat :| i < |ms| && ms[i].start == s.start && ms[i].end == s.end;
    assert IsMatchOf(lex, text, terms, ms[i]);
    InsideOf(ms, first, last, a, b, i);
  }

  lemma InsideOf(ms: seq<Match>, first: nat, last: nat, a: nat, b: nat, i: nat)
    requires Ascending(ms) && first <= last < |ms| && i < |ms| && a <= ms[i].start && ms[i].end <= b
    requires (first > 0 ==> ms[first-1].start < a) && (last + 1 < |ms| ==> b < ms[last+1].end)
    ensures first <= i <= last
  {}

  /** The matches between two places, if there are any, are a group. */
  lemma GroupBetween(ms: seq<Match>, a: nat, b: nat, i: nat) returns (g: Group)
    requires Ascending(ms) && i < |ms| && a <= ms[i].start && ms[i].end <= b
    ensures g.first <= g.last < |ms| && a <= ms[g.first].start && ms[g.last].end <= b
    ensures (g.first > 0 ==> ms[g.first-1].start < a) && (g.last + 1 < |ms| ==> b < ms[g.last+1].end)
  {
    var f: nat, l: nat := i, i;
    while f > 0 && ms[f-1].start >= a
      invariant f <= i && a <= ms[f].start
    {
      f := f - 1;
    }
    while l + 1 < |ms| && ms[l+1].end <= b
      invariant i <= l < |ms| && ms[l].end <= b
    {
      l := l + 1;
    }
    g := Group(f, l);
  }

  // ---------------------------------------------------------------- no window holds more terms

  /** A range of the text from the beginning of one hit to the end of another, no longer than the window. */
  ghost predicate IsRange(lex: Lexicon, text: string, terms: seq<string>, window: nat, s: Span, e: Span) {
    && IsHit(lex, text, terms, s) && IsHit(lex, text, terms, e)
    && s.start <= e.start && e.end <= |text| && e.end - s.start <= window
  }

  /**
   * The range an excerpt is cut around: no other range has more distinct terms, none that ends later has as
   * many, and none that ends there begins earlier.
   */
  ghost predicate IsBestRange(lex: Lexicon, text: string, terms: seq<string>, window: nat, s: Span, e: Span) {
    && IsRange(lex, text, terms, window, s, e)
    && forall s2, e2 :: IsRange(lex, text, terms, window, s2, e2) ==>
         Beats(|TermsBetween(lex, text, terms, s.start, e.end)|, s, e,
               |TermsBetween(lex, text, terms, s2.start, e2.end)|, s2, e2)
  }

  ghost predicate Beats(n: nat, s: Span, e: Span, n2: nat, s2: Span, e2: Span) {
    && n2 <= n && (e2.end > e.end ==> n2 < n) && (e2.end == e.end ==> s.start <= s2.start)
  }

  /** The window begins a quarter of its length before the range, where the range and the text allow. */
  ghost predicate IsPlaced(size: nat, window: nat, s: Span, e: Span, start: nat) {
    && start + window <= size && start <= s.start && e.end <= start + window
    && (start + window == size || s.start - start <= window / 4)
    && (start == 0 || start + window == e.end || s.start - start == window / 4 || start + window == size)
  }

  lemma GroupOfRange(lex: Lexicon, text: string, terms: seq<string>, ms: seq<Match>, window: nat, s: Span, e: Span)
    returns (g: Group)
    requires AreHits(lex, text, terms, ms) && IsRange(lex, text, terms, window, s, e)
    ensures FitsIn(ms, window, g) && ms[g.first].start == s.start && ms[g.last].end == e.end
  {
    hide IsHit;
    var i: nat :| i < |ms| && ms[i].start == s.start && ms[i].end == s.end;
    var j: nat :| j < |ms| && ms[j].start == e.start && ms[j].end == e.end;
    MatchOrder(ms, i, j);
    g := Group(i, j);
  }

  lemma MatchOrder(ms: seq<Match>, i: nat, j: nat)
    requires Ascending(ms) && i < |ms| && j < |ms| && ms[i].start <= ms[j].start
    ensures i <= j
  {}

  /** Where the excerpt of a long text begins: around the best range, or at the beginning if no hit fits. */
  lemma ExcerptIsPlaced(lex: Lexicon, text: string, terms: seq<string>, window: nat)
    returns (start: nat, s: Span, e: Span)
    requires |text| > window && terms != []
    ensures start + window <= |text| && Excerpt(lex, text, terms, window) == text[start..start + window]
    ensures (exists x, y :: IsRange(lex, text, terms, window, x, y)) ==>
              IsBestRange(lex, text, terms, window, s, e) && IsPlaced(|text|, window, s, e, start)
    ensures !(exists x, y :: IsRange(lex, text, terms, window, x, y)) ==> start == 0
  {
    hide *;
    var ms := MatchesOf(lex, text, Elements(terms));
    var best := Best(ms, window, |ms|);
    MatchesAreHits(lex, text, terms);
    BestIsOptimal(ms, window, |ms|);
    ExcerptCases(lex, text, terms, window);
    if best.None? {
      start, s, e := WindowStart(|text|, window, 0, 0), Span(0, 0), Span(0, 0);
      StartIsZero(|text|, window);
      forall x, y ensures !IsRange(lex, text, terms, window, x, y) {
        if IsRange(lex, text, terms, window, x, y) {
          var g := GroupOfRange(lex, text, terms, ms, window, x, y);
          GroupIsBelow(ms, window, g);
          assert false;
        }
      }
    } else {
      var g := best.value;
      GroupIsBelow(ms, window, g);
      start := WindowStart(|text|, window, ms[g.first].start, ms[g.last].end);
      s, e := Span(ms[g.first].start, ms[g.first].end), Span(ms[g.last].start, ms[g.last].end);
      BestGroupIsBestRange(lex, text, terms, ms, window, g);
      PlacedAround(|text|, window, s, e);
    }
  }

  lemma BestGroupIsBestRange(lex: Lexicon, text: string, terms: seq<string>, ms: seq<Match>, window: nat, g: Group)
    requires AreHits(lex, text, terms, ms) && FitsIn(ms, window, g)
    requires forall h: Group :: FitsIn(ms, window, h) && h.last < |ms| ==> Score(ms, h) <= Score(ms, g)
    requires forall h: Group :: FitsIn(ms, window, h) && g.last < h.last < |ms| ==> Score(ms, h) < Score(ms, g)
    requires forall h: Group :: FitsIn(ms, window, h) && h.last == g.last ==> g.first <= h.first
    ensures g.first <= g.last < |ms| && ms[g.last].end <= |text| && ms[g.last].end - ms[g.first].start <= window
    ensures ms[g.first].start <= ms[g.last].end
    ensures var s, e := Span(ms[g.first].start, ms[g.first].end), Span(ms[g.last].start, ms[g.last].end);
            IsBestRange(lex, text, terms, window, s, e) && IsRange(lex, text, terms, window, s, e)
  {
    hide *;
    GroupIsBelow(ms, window, g);
    GroupIsRange(lex, text, terms, ms, window, g);
    var s, e := Span(ms[g.first].start, ms[g.first].end), Span(ms[g.last].start, ms[g.last].end);
    RangeIs(lex, text, terms, window, s, e);
    forall h: Group | FitsIn(ms, window, h) ensures h.last < |ms| { GroupIsBelow(ms, window, h); }
    forall s2, e2 | IsRange(lex, text, terms, window, s2, e2)
      ensures e2.end <= |text| &&
              Beats(|TermsBetween(lex, text, terms, s.start, e.end)|, s, e,
                    |TermsBetween(lex, text, terms, s2.start, e2.end)|, s2, e2)
    {
      BeatsRange(lex, text, terms, ms, window, g, s2, e2);
    }
    BestRangeWhole(lex, text, terms, window, s, e);
  }

  lemma RangeIs(lex: Lexicon, text: string, terms: seq<string>, window: nat, s: Span, e: Span)
    requires IsRange(lex, text, terms, window, s, e)
    ensures s.start <= e.end <= |text| && e.end - s.start <= window
  {}

  lemma ExcerptCases(lex: Lexicon, text: string, terms: seq<string>, window: nat)
    requires |text| > window && terms != []
    ensures var ms := MatchesOf(lex, text, Elements(terms));
            var best := Best(ms, window, |ms|);
            var start := if best.None? then WindowStart(|text|, window, 0, 0)
                         else WindowStart(|text|, window, ms[best.value.first].start, ms[best.value.last].end);
            Excerpt(lex, text, terms, window) == text[start..start + window]
  {
    hide MatchesOf, Best, WindowStart;
  }

  lemma StartIsZero(size: nat, window: nat)
    requires window < size
    ensures WindowStart(size, window, 0, 0) == 0
  {}

  lemma GroupIsBelow(ms: seq<Match>, window: nat, g: Group)
    requires FitsIn(ms, window, g)
    ensures g.first <= g.last < |ms|
  {}

  lemma GroupIsRange(lex: Lexicon, text: string, terms: seq<string>, ms: seq<Match>, window: nat, g: Group)
    requires AreHits(lex, text, terms, ms) && FitsIn(ms, window, g)
    ensures g.first <= g.last < |ms|
    ensures IsRange(lex, text, terms, window, Span(ms[g.first].start, ms[g.first].end),
                    Span(ms[g.last].start, ms[g.last].end))
  {
    hide IsHit;
    assert IsMatchOf(lex, text, terms, ms[g.first]) && IsMatchOf(lex, text, terms, ms[g.last]);
  }

  lemma PlacedAround(size: nat, window: nat, s: Span, e: Span)
    requires window < size && s.start <= e.end <= size && e.end - s.start <= window
    ensures IsPlaced(size, window, s, e, WindowStart(size, window, s.start, e.end))
  {
    WindowHoldsGroup(size, window, s.start, e.end);
    hide WindowStart;
  }

  /** What the best group of matches says about any range of the text. */
  lemma BeatsRange(lex: Lexicon, text: string, terms: seq<string>, ms: seq<Match>, window: nat, g: Group, s2: Span,
                   e2: Span)
    requires AreHits(lex, text, terms, ms) && FitsIn(ms, window, g) && IsRange(lex, text, terms, window, s2, e2)
    requires forall h: Group :: FitsIn(ms, window, h) ==> Score(ms, h) <= Score(ms, g)
    requires forall h: Group :: FitsIn(ms, window, h) && g.last < h.last ==> Score(ms, h) < Score(ms, g)
    requires forall h: Group :: FitsIn(ms, window, h) && h.last == g.last ==> g.first <= h.first
    ensures g.first <= g.last < |ms| && ms[g.last].end <= |text| && e2.end <= |text|
    ensures Beats(|TermsBetween(lex, text, terms, ms[g.first].start, ms[g.last].end)|,
                  Span(ms[g.first].start, ms[g.first].end), Span(ms[g.last].start, ms[g.last].end),
                  |TermsBetween(lex, text, terms, s2.start, e2.end)|, s2, e2)
  {
    var h := GroupOfRange(lex, text, terms, ms, window, s2, e2);
    ScoreIs(lex, text, terms, ms, g);
    ScoreIs(lex, text, terms, ms, h);
    GroupOrder(ms, g, h);
    hide IsHit, AreHits, TermsBetween, Score, IsRange;
  }

  lemma GroupOrder(ms: seq<Match>, g: Group, h: Group)
    requires Ascending(ms) && g.first <= g.last < |ms| && h.first <= h.last < |ms|
    ensures ms[h.last].end > ms[g.last].end ==> g.last < h.last
    ensures ms[h.last].end == ms[g.last].end ==> g.last == h.last
    ensures g.first <= h.first ==> ms[g.first].start <= ms[h.first].start
  {}

  lemma BestRangeWhole(lex: Lexicon, text: string, terms: seq<string>, window: nat, s: Span, e: Span)
    requires IsRange(lex, text, terms, window, s, e)
    requires forall s2, e2 :: IsRange(lex, text, terms, window, s2, e2) ==>
               e2.end <= |text| && Beats(|TermsBetween(lex, text, terms, s.start, e.end)|, s, e,
                                         |TermsBetween(lex, text, terms, s2.start, e2.end)|, s2, e2)
    ensures IsBestRange(lex, text, terms, window, s, e)
  {
    hide TermsBetween, Beats, IsRange;
  }

  /** No window of that size, wherever it is put, holds more distinct terms than the excerpt. */
  lemma NoWindowHoldsMore(lex: Lexicon, text: string, terms: seq<string>, window: nat, a: nat) returns (start: nat)
    requires |text| > window && terms != [] && a + window <= |text|
    ensures start + window <= |text| && Excerpt(lex, text, terms, window) == text[start..start + window]
    ensures |TermsBetween(lex, text, terms, a, a + window)| <= |TermsBetween(lex, text, terms, start, start + window)|
  {
    var s, e;
    start, s, e := ExcerptIsPlaced(lex, text, terms, window);
    if TermsBetween(lex, text, terms, a, a + window) != {} {
      var k :| k in TermsBetween(lex, text, terms, a, a + window);
      var x, y := RangeBetween(lex, text, terms, window, a, k);
      hide *;
      BestBeats2(lex, text, terms, window, s, e, x, y);
      PlacedHolds(lex, text, terms, window, s, e, start);
    }
  }

  /** All hits of a window lie in one range. */
  lemma RangeBetween(lex: Lexicon, text: string, terms: seq<string>, window: nat, a: nat, k: string)
    returns (x: Span, y: Span)
    requires a + window <= |text| && k in TermsBetween(lex, text, terms, a, a + window)
    ensures IsRange(lex, text, terms, window, x, y)
    ensures TermsBetween(lex, text, terms, a, a + window) == TermsBetween(lex, text, terms, x.start, y.end)
  {
    hide *;
    MatchesAreHits(lex, text, terms);
    var ms := MatchesOf(lex, text, Elements(terms));
    var s := BetweenFrom(lex, text, terms, a, a + window, k);
    var i := HitAt(lex, text, terms, ms, s);
    var g := GroupBetween(ms, a, a + window, i);
    GroupFits(ms, text, window, a, g);
    GroupIsRange(lex, text, terms, ms, window, g);
    x, y := Span(ms[g.first].start, ms[g.first].end), Span(ms[g.last].start, ms[g.last].end);
    KeysAre(lex, text, terms, ms, g.first, g.last, a, a + window);
    KeysAre(lex, text, terms, ms, g.first, g.last, x.start, y.end);
  }

  lemma HitAt(lex: Lexicon, text: string, terms: seq<string>, ms: seq<Match>, s: Span) returns (i: nat)
    requires AreHits(lex, text, terms, ms) && IsHit(lex, text, terms, s)
    ensures i < |ms| && ms[i].start == s.start && ms[i].end == s.end && Ascending(ms) && InSpan(text, ms)
  {
    hide IsHit, Ascending, InSpan;
    i :| i < |ms| && ms[i].start == s.start && ms[i].end == s.end;
  }

  lemma GroupFits(ms: seq<Match>, text: string, window: nat, a: nat, g: Group)
    requires Ascending(ms) && InSpan(text, ms) && g.first <= g.last < |ms|
    requires a <= ms[g.first].start && ms[g.last].end <= a + window
    ensures FitsIn(ms, window, g) && ms[g.last].end <= |text|
    ensures (g.first > 0 ==> ms[g.first-1].start < ms[g.first].start)
            && (g.last + 1 < |ms| ==> ms[g.last].end < ms[g.last+1].end)
  {}

  lemma BestBeats2(lex: Lexicon, text: string, terms: seq<string>, window: nat, s: Span, e: Span, x: Span, y: Span)
    requires IsBestRange(lex, text, terms, window, s, e) && IsRange(lex, text, terms, window, x, y)
    ensures e.end <= |text| && y.end <= |text|
    ensures |TermsBetween(lex, text, terms, x.start, y.end)| <= |TermsBetween(lex, text, terms, s.start, e.end)|
  {
    hide TermsBetween, IsHit;
  }

  lemma PlacedHolds(lex: Lexicon, text: string, terms: seq<string>, window: nat, s: Span, e: Span, start: nat)
    requires IsPlaced(|text|, window, s, e, start)
    ensures e.end <= |text| && start + window <= |text|
    ensures |TermsBetween(lex, text, terms, s.start, e.end)| <= |TermsBetween(lex, text, terms, start, start + window)|
  {
    SubsetSmaller(TermsBetween(lex, text, terms, s.start, e.end),
                  TermsBetween(lex, text, terms, start, start + window));
  }

  // ---------------------------------------------------------------- relevance

  /** A text's relevance counts the terms that occur in it as whole words. */
  lemma RelevanceIs(lex: Lexicon, text: string, terms: seq<string>)
    ensures Relevance.Relevance(lex, text, terms) == |TermsBetween(lex, text, terms, 0, |text|)|
  {
    WordsAreRuns(lex, text);
    hide Words, Run;
    var found, between := FoundKeys(lex, text, terms), TermsBetween(lex, text, terms, 0, |text|);
    forall k | k in found ensures k in between {
      var s :| s in Words(lex, text) && KeyOf(lex, text, s) in terms && KeyOf(lex, text, s) == k;
      assert Run(lex, text, s);
      RunNonEmpty(lex, text, s);
      BetweenHas(lex, text, terms, 0, |text|, s);
    }
    forall k | k in between ensures k in found {
      var s := BetweenFrom(lex, text, terms, 0, |text|, k);
      assert s in Words(lex, text) && KeyOf(lex, text, s) == k;
    }
    assert found == between;
  }
}
