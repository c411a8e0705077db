/** Query matching and excerpt windows (packages/python/src/cci/relevance.py). */
module Relevance {
  import opened Wrappers
  import opened Sequences

  /** Which characters belong to words, and the key of a word (folding and inflection together). */
  datatype Lexicon = Lexicon(isWord: char -> bool, key: string -> string)

  datatype Span = Span(start: nat, end: nat)

  // ---------------------------------------------------------------- words

  /** The scan from `end` on, with a word open since `open` (or none). */
  function WordsFrom(lex: Lexicon, text: string, end: nat, open: Option<nat>): seq<Span>
    requires end <= |text| + 1
    decreases |text| + 1 - end
  {
    if end == |text| + 1 then []
    else if end < |text| && lex.isWord(text[end]) then
      WordsFrom(lex, text, end + 1, if open.None? then Some(end) else open)
    else if open.Some? then [Span(open.value, end)] + WordsFrom(lex, text, end + 1, None)
    else WordsFrom(lex, text, end + 1, None)
  }

  function Words(lex: Lexicon, text: string): seq<Span> {
    WordsFrom(lex, text, 0, None)
  }

  ghost predicate AllWord(lex: Lexicon, text: string, s: Span) {
    s.start < s.end <= |text| && forall k :: s.start <= k < s.end ==> lex.isWord(text[k])
  }

  /** A maximal run of word characters. */
  ghost predicate Run(lex: Lexicon, text: string, s: Span) {
    && AllWord(lex, text, s)
    && (s.start > 0 ==> !lex.isWord(text[s.start-1])) && (s.end < |text| ==> !lex.isWord(text[s.end]))
  }

  ghost predicate Apart(spans: seq<Span>) {
    forall i, j :: 0 <= i < j < |spans| ==> spans[i].end < spans[j].start
  }

  ghost predicate Within(s: Span, k: nat) {
    s.start <= k < s.end
  }

  ghost predicate SomeSpan(spans: seq<Span>, k: nat) {
    exists i :: 0 <= i < |spans| && Within(spans[i], k)
  }

  /** Every word character from `from` on lies in some span. */
  ghost predicate Covered(lex: Lexicon, text: string, from: nat, spans: seq<Span>) {
    forall k: nat :: from <= k < |text| && lex.isWord(text[k]) ==> SomeSpan(spans, k)
  }

  ghost predicate AllRuns(lex: Lexicon, text: string, from: nat, spans: seq<Span>) {
    forall i :: 0 <= i < |spans| ==> Run(lex, text, spans[i]) && from <= spans[i].start
  }

  ghost predicate OpenAt(lex: Lexicon, text: string, end: nat, open: Option<nat>) {
    && end <= |text| + 1
    && (open.Some? ==>
          && end <= |text| && AllWord(lex, text, Span(open.value, end))
          && (open.value > 0 ==> !lex.isWord(text[open.value-1])))
    && (open.None? && 0 < end <= |text| ==> !lex.isWord(text[end-1]))
  }

  function FromOf(end: nat, open: Option<nat>): nat {
    if open.Some? then open.value else end
  }

  lemma ApartCons(s: Span, rest: seq<Span>)
    requires Apart(rest) && forall i :: 0 <= i < |rest| ==> s.end < rest[i].start
    ensures Apart([s] + rest)
  {}

  lemma AllRunsCons(lex: Lexicon, text: string, s: Span, from: nat, rest: seq<Span>)
    requires Run(lex, text, s) && AllRuns(lex, text, from, rest) && s.start <= from
    ensures AllRuns(lex, text, s.start, [s] + rest)
  {
    hide Run;
  }

  lemma SomeSpanCons(s: Span, rest: seq<Span>, k: nat)
    requires Within(s, k) || SomeSpan(rest, k)
    ensures SomeSpan([s] + rest, k)
  {
    if Within(s, k) {
      assert Within(([s] + rest)[0], k);
    } else {
      var i :| 0 <= i < |rest| && Within(rest[i], k);
      assert Within(([s] + rest)[i+1], k);
    }
  }

  lemma CoveredCons(lex: Lexicon, text: string, s: Span, rest: seq<Span>)
    requires Covered(lex, text, s.end, rest)
    ensures Covered(lex, text, s.start, [s] + rest)
  {
    hide SomeSpan;
    forall k: nat | s.start <= k < |text| && lex.isWord(text[k]) ensures SomeSpan([s] + rest, k) {
      SomeSpanCons(s, rest, k);
    }
  }

  lemma CoveredSkip(lex: Lexicon, text: string, end: nat, spans: seq<Span>)
    requires Covered(lex, text, end + 1, spans) && (end < |text| ==> !lex.isWord(text[end]))
    ensures Covered(lex, text, end, spans)
  {
    hide SomeSpan;
  }

  lemma {:induction false} WordsFromFacts(lex: Lexicon, text: string, end: nat, open: Option<nat>)
    requires OpenAt(lex, text, end, open)
    ensures var ws := WordsFrom(lex, text, end, open);
            && Apart(ws) && AllRuns(lex, text, FromOf(end, open), ws) && Covered(lex, text, FromOf(end, open), ws)
    decreases |text| + 1 - end
  {
    hide Apart, AllRuns, Covered;
    if end == |text| + 1 {
      NoSpans(lex, text);
    } else if end < |text| && lex.isWord(text[end]) {
      WordsFromFacts(lex, text, end + 1, if open.None? then Some(end) else open);
    } else {
      WordsFromFacts(lex, text, end + 1, None);
      var rest := WordsFrom(lex, text, end + 1, None);
      CoveredSkip(lex, text, end, rest);
      RunsLater(lex, text, end + 1, rest);
      if open.Some? {
        var s := Span(open.value, end);
        ApartCons(s, rest);
        AllRunsCons(lex, text, s, end, rest);
        CoveredCons(lex, text, s, rest);
      }
    }
  }

  lemma NoSpans(lex: Lexicon, text: string)
    ensures Apart([]) && AllRuns(lex, text, |text| + 1, []) && Covered(lex, text, |text| + 1, [])
  {}

  lemma RunsLater(lex: Lexicon, text: string, from: nat, spans: seq<Span>)
    requires AllRuns(lex, text, from, spans) && from > 0
    ensures AllRuns(lex, text, from - 1, spans) && forall i :: 0 <= i < |spans| ==> from - 1 < spans[i].start
  {
    hide Run;
  }

  /** The words are exactly the maximal runs of word characters, in order. */
  lemma WordsAreRuns(lex: Lexicon, text: string)
    ensures Apart(Words(lex, text)) && InText(text, Words(lex, text))
    ensures forall s :: s in Words(lex, text) <==> Run(lex, text, s)
  {
    var ws := Words(lex, text);
    WordsFromFacts(lex, text, 0, None);
    hide Words, Apart;
    forall s | Run(lex, text, s) ensures s in ws {
      assert SomeSpan(ws, s.start);
      var i :| 0 <= i < |ws| && Within(ws[i], s.start);
      RunsAgree(lex, text, s, ws[i]);
    }
  }

  lemma RunsAgree(lex: Lexicon, text: string, a: Span, b: Span)
    requires Run(lex, text, a) && Run(lex, text, b) && Within(b, a.start)
    ensures a == b
  {}

  /** Every span lies in the text. */
  ghost predicate InText(text: string, spans: seq<Span>) {
    forall s :: s in spans ==> s.start <= s.end <= |text|
  }

  /** The scanning loop over the text and one closing space. */
  method ScanWords(lex: Lexicon, text: string) returns (words: seq<Span>)
    requires !lex.isWord(' ')
    ensures words == Words(lex, text)
  {
    words := [];
    var start: Option<nat> := None;
    var padded := text + " ";
    for end := 0 to |padded|
      invariant words + WordsFrom(lex, text, end, start) == Words(lex, text)
    {
      if lex.isWord(padded[end]) {
        if start.None? {
          start := Some(end);
        }
      } else if start.Some? {
        words := words + [Span(start.value, end)];
        start := None;
      }
    }
  }

  // ---------------------------------------------------------------- matches

  datatype Match = Match(start: nat, end: nat, key: string)

  function KeyOf(lex: Lexicon, text: string, s: Span): string
    requires s.start <= s.end <= |text|
  {
    lex.key(text[s.start..s.end])
  }

  /** The words whose key is wanted, in order. */
  function Matching(lex: Lexicon, text: string, words: seq<Span>, wanted: set<string>): seq<Match>
    requires InText(text, words)
  {
    if words == [] then []
    else
      var last := words[|words|-1];
      Matching(lex, text, words[..|words|-1], wanted) +
      (if KeyOf(lex, text, last) in wanted then [Match(last.start, last.end, KeyOf(lex, text, last))] else [])
  }

  ghost predicate Ascending(ms: seq<Match>) {
    && (forall i :: 0 <= i < |ms| ==> ms[i].start < ms[i].end)
    && (forall i, j :: 0 <= i < j < |ms| ==> ms[i].end < ms[j].start)
  }

  /** `m` marks a word of the text whose key is wanted. */
  ghost predicate Marks(lex: Lexicon, text: string, wanted: set<string>, m: Match) {
    Run(lex, text, Span(m.start, m.end)) && m.key == lex.key(text[m.start..m.end]) && m.key in wanted
  }

  ghost predicate AllMark(lex: Lexicon, text: string, wanted: set<string>, words: seq<Span>, ms: seq<Match>) {
    forall m :: m in ms ==> Marks(lex, text, wanted, m) && Span(m.start, m.end) in words
  }

  lemma {:induction false} MatchingFacts(lex: Lexicon, text: string, words: seq<Span>, wanted: set<string>)
    requires InText(text, words) && Apart(words) && forall s :: s in words ==> Run(lex, text, s)
    ensures var ms := Matching(lex, text, words, wanted); Ascending(ms) && AllMark(lex, text, wanted, words, ms)
  {
    if words != [] {
      var init, last := words[..|words|-1], words[|words|-1];
      assert words == init + [last];
      assert Apart(init) && last in words;
      MatchingFacts(lex, text, init, wanted);
      MatchingLast(lex, text, words, wanted);
      hide *;
      if KeyOf(lex, text, last) in wanted {
        MarkLast(lex, text, wanted, words, Matching(lex, text, init, wanted));
      } else {
        AllMarkMore(lex, text, wanted, words, Matching(lex, text, init, wanted));
        assert Matching(lex, text, init, wanted) + [] == Matching(lex, text, init, wanted);
      }
    }
  }

  lemma AllMarkMore(lex: Lexicon, text: string, wanted: set<string>, words: seq<Span>, ms: seq<Match>)
    requires words != [] && AllMark(lex, text, wanted, words[..|words|-1], ms)
    ensures AllMark(lex, text, wanted, words, ms)
  {
    hide Marks;
  }

  lemma MarkLast(lex: Lexicon, text: string, wanted: set<string>, words: seq<Span>, ms: seq<Match>)
    requires words != [] && InText(text, words) && Apart(words) && forall s :: s in words ==> Run(lex, text, s)
    requires var last := words[|words|-1]; last in words && KeyOf(lex, text, last) in wanted
    requires Ascending(ms) && AllMark(lex, text, wanted, words[..|words|-1], ms)
    ensures var last := words[|words|-1];
            var next := ms + [Match(last.start, last.end, KeyOf(lex, text, last))];
            Ascending(next) && AllMark(lex, text, wanted, words, next)
  {
    var last := words[|words|-1];
    var m := Match(last.start, last.end, KeyOf(lex, text, last));
    RunNonEmpty(lex, text, last);
    assert Marks(lex, text, wanted, m);
    AllMarkMore(lex, text, wanted, words, ms);
    hide Run, Marks, Ascending, Apart;
    forall i | 0 <= i < |ms| ensures ms[i].end < last.start {
      assert ms[i] in ms;
      EndsBefore(words, Span(ms[i].start, ms[i].end));
    }
    AscendingSnoc(ms, m);
  }

  lemma RunNonEmpty(lex: Lexicon, text: string, s: Span)
    requires Run(lex, text, s)
    ensures s.start < s.end
  {}

  lemma EndsBefore(words: seq<Span>, s: Span)
    requires words != [] && Apart(words) && s in words[..|words|-1]
    ensures s.end < words[|words|-1].start
  {
    var j :| 0 <= j < |words| - 1 && words[j] == s;
  }

  lemma MatchingLast(lex: Lexicon, text: string, words: seq<Span>, wanted: set<string>)
    requires InText(text, words) && words != []
    ensures var init, last := words[..|words|-1], words[|words|-1];
            && InText(text, init) && last in words
            && Matching(lex, text, words, wanted) == Matching(lex, text, init, wanted) +
               (if KeyOf(lex, text, last) in wanted then [Match(last.start, last.end, KeyOf(lex, text, last))] else [])
  {}

  lemma AscendingSnoc(ms: seq<Match>, m: Match)
    requires Ascending(ms) && m.start < m.end && forall i :: 0 <= i < |ms| ==> ms[i].end < m.start
    ensures Ascending(ms + [m])
  {}

  // ---------------------------------------------------------------- the best group

  /** A group of consecutive matches, first and last included. */
  datatype Group = Group(first: nat, last: nat)

  ghost predicate FitsIn(ms: seq<Match>, window: nat, g: Group) {
    g.first <= g.last < |ms| && ms[g.last].end - ms[g.first].start <= window
  }

  function KeysIn(ms: seq<Match>, from: nat, until: nat): set<string>
    requires from <= until <= |ms|
  {
    set i | from <= i < until :: ms[i].key
  }

  function Score(ms: seq<Match>, g: Group): nat
    requires g.first <= g.last < |ms|
  {
    |KeysIn(ms, g.first, g.last + 1)|
  }

  /** The first match from `from` on whose group ending at `last` fits; `last + 1` when none does. */
  function Leftmost(ms: seq<Match>, window: nat, last: nat, from: nat): (l: nat)
    requires last < |ms| && from <= last + 1
    ensures from <= l <= last + 1
    ensures l <= last ==> ms[last].end - ms[l].start <= window
    ensures forall k :: from <= k < l ==> ms[last].end - ms[k].start > window
    decreases last + 1 - from
  {
    if from <= last && ms[last].end - ms[from].start > window then Leftmost(ms, window, last, from + 1) else from
  }

  /** The group kept after considering last matches before `upto`: highest score, then latest. */
  function Best(ms: seq<Match>, window: nat, upto: nat): (r: Option<Group>)
    requires upto <= |ms|
    ensures r.Some? ==> FitsIn(ms, window, r.value) && r.value.last < upto
  {
    if upto == 0 then None
    else
      var last := upto - 1;
      var before := Best(ms, window, last);
      var l := Leftmost(ms, window, last, 0);
      if l <= last && (before.None? || Score(ms, Group(l, last)) >= Score(ms, before.value)) then Some(Group(l, last))
      else before
  }

  lemma KeysGrow(ms: seq<Match>, a: nat, b: nat, until: nat)
    requires a <= b <= until <= |ms|
    ensures |KeysIn(ms, b, until)| <= |KeysIn(ms, a, until)|
  {
    SubsetSmaller(KeysIn(ms, b, until), KeysIn(ms, a, until));
  }

  /**
   * The kept group is the best of all match ranges that fit in the window: no range has more distinct
   * keys, none that ends later has as many, and none that ends there starts earlier.
   */
  lemma {:induction false} BestIsOptimal(ms: seq<Match>, window: nat, upto: nat)
    requires upto <= |ms|
    ensures var r := Best(ms, window, upto);
            && (r.None? <==> forall g: Group :: g.last < upto ==> !FitsIn(ms, window, g))
            && (r.Some? ==>
                  && (forall g: Group :: FitsIn(ms, window, g) && g.last < upto ==> Score(ms, g) <= Score(ms, r.value))
                  && (forall g: Group :: FitsIn(ms, window, g) && r.value.last < g.last < upto ==>
                        Score(ms, g) < Score(ms, r.value))
                  && (forall g: Group :: FitsIn(ms, window, g) && g.last == r.value.last ==> r.value.first <= g.first))
  {
    if upto > 0 {
      var last := upto - 1;
      BestIsOptimal(ms, window, last);
      var l := Leftmost(ms, window, last, 0);
      hide Best, Leftmost, KeysIn;
      forall g | FitsIn(ms, window, g) && g.last == last
        ensures l <= g.first && l <= last && Score(ms, g) <= Score(ms, Group(l, last))
      {
        assert l <= g.first;
        KeysGrow(ms, l, g.first, last + 1);
      }
      BestCases(ms, window, upto);
    }
  }

  lemma BestCases(ms: seq<Match>, window: nat, upto: nat)
    requires 0 < upto <= |ms|
    ensures var last := upto - 1;
            var before := Best(ms, window, last);
            var l := Leftmost(ms, window, last, 0);
            if l <= last && (before.None? || Score(ms, Group(l, last)) >= Score(ms, before.value))
            then Best(ms, window, upto) == Some(Group(l, last)) else Best(ms, window, upto) == before
  {}

  // ---------------------------------------------------------------- the sliding window

  /** `counts` holds, with multiplicity, the keys of matches `from` to `until`. */
  ghost predicate Counts(ms: seq<Match>, from: nat, until: nat, counts: map<string, nat>) {
    && from <= until <= |ms|
    && counts.Keys == KeysIn(ms, from, until)
    && forall k :: k in counts ==> counts[k] == Tally(ms, from, until, k)
  }

  function Tally(ms: seq<Match>, from: nat, until: nat, k: string): nat
    requires from <= until <= |ms|
    decreases until - from
  {
    if from == until then 0 else (if ms[from].key == k then 1 else 0) + Tally(ms, from + 1, until, k)
  }

  lemma {:induction false} TallyExtends(ms: seq<Match>, from: nat, until: nat, k: string)
    requires from <= until < |ms|
    ensures Tally(ms, from, until + 1, k) == Tally(ms, from, until, k) + (if ms[until].key == k then 1 else 0)
    decreases until - from
  {
    if from < until { TallyExtends(ms, from + 1, until, k); }
  }

  lemma {:induction false} TallyPositive(ms: seq<Match>, from: nat, until: nat, k: string)
    requires from <= until <= |ms|
    ensures Tally(ms, from, until, k) > 0 <==> k in KeysIn(ms, from, until)
    decreases until - from
  {
    if from < until {
      TallyPositive(ms, from + 1, until, k);
      assert KeysIn(ms, from, until) == KeysIn(ms, from + 1, until) + {ms[from].key};
    }
  }

  /** The counter with one more occurrence of `key`. */
  function Increment(counts: map<string, nat>, key: string): map<string, nat> {
    counts[key := (if key in counts then counts[key] else 0) + 1]
  }

  /** The counter with one occurrence fewer, dropping a key that reaches zero. */
  function Decrement(counts: map<string, nat>, key: string): map<string, nat>
    requires key in counts && counts[key] > 0
  {
    if counts[key] == 1 then counts - {key} else counts[key := counts[key] - 1]
  }

  lemma CountsExtend(ms: seq<Match>, from: nat, until: nat, counts: map<string, nat>)
    requires Counts(ms, from, until, counts) && until < |ms|
    ensures Counts(ms, from, until + 1, Increment(counts, ms[until].key))
  {
    var key := ms[until].key;
    var next := Increment(counts, key);
    assert KeysIn(ms, from, until + 1) == KeysIn(ms, from, until) + {key};
    forall k | k in next ensures next[k] == Tally(ms, from, until + 1, k) {
      TallyExtends(ms, from, until, k);
      TallyPositive(ms, from, until, k);
    }
  }

  lemma CountsShrink(ms: seq<Match>, from: nat, until: nat, counts: map<string, nat>)
    requires Counts(ms, from, until, counts) && from < until
    ensures ms[from].key in counts && counts[ms[from].key] > 0
    ensures Counts(ms, from + 1, until, Decrement(counts, ms[from].key))
  {
    var key := ms[from].key;
    assert KeysIn(ms, from, until) == KeysIn(ms, from + 1, until) + {key};
    TallyPositive(ms, from, until, key);
    TallyPositive(ms, from + 1, until, key);
    var next := Decrement(counts, key);
    assert next.Keys == KeysIn(ms, from + 1, until);
  }

  /** The inner loop: matches leave on the left until the group ending at `right` fits. */
  method DropOutside(ms: seq<Match>, window: nat, right: nat, from: nat, entered: map<string, nat>)
    returns (left: nat, counts: map<string, nat>)
    requires right < |ms| && from <= right && Counts(ms, from, right + 1, entered)
    requires forall k :: 0 <= k < from ==> ms[right].end - ms[k].start > window
    ensures left == Leftmost(ms, window, right, 0) && Counts(ms, left, right + 1, counts)
  {
    left, counts := from, entered;
    while left <= right && ms[right].end - ms[left].start > window
      invariant left <= right + 1
      invariant Counts(ms, left, right + 1, counts)
      invariant forall k :: 0 <= k < left ==> ms[right].end - ms[k].start > window
      decreases right + 1 - left
    {
      CountsShrink(ms, left, right + 1, counts);
      counts := Decrement(counts, ms[left].key);
      left := left + 1;
    }
    LeftmostIs(ms, window, right, left);
  }

  lemma StillOutside(ms: seq<Match>, window: nat, right: nat)
    requires Ascending(ms) && 0 < right < |ms|
    ensures forall k :: 0 <= k < Leftmost(ms, window, right - 1, 0) ==> ms[right].end - ms[k].start > window
  {
    assert ms[right-1].end < ms[right].start < ms[right].end;
  }

  lemma CountsSize(ms: seq<Match>, from: nat, until: nat, counts: map<string, nat>)
    requires Counts(ms, from, until, counts)
    ensures |counts| == |KeysIn(ms, from, until)| && (|counts| > 0 <==> from < until)
  {
    assert |counts.Keys| == |counts|;
    NonEmptyCounts(ms, from, until);
  }

  /** The sliding window: each match enters once and leaves at most once, and the result is `Best`. */
  method SlideWindow(ms: seq<Match>, window: nat) returns (best: Option<Group>)
    requires Ascending(ms)
    ensures best == Best(ms, window, |ms|)
  {
    hide KeysIn, Tally, Best, Ascending, Counts, Leftmost;
    var counts: map<string, nat> := map[];
    var left, bestScore := 0, 0;
    best := None;
    NoMatchesYet(ms, window);
    for right := 0 to |ms|
      invariant left == if right == 0 then 0 else Leftmost(ms, window, right - 1, 0)
      invariant Counts(ms, left, right, counts)
      invariant best == Best(ms, window, right)
      invariant bestScore == if best.None? then 0 else Score(ms, best.value)
    {
      CountsExtend(ms, left, right, counts);
      counts := Increment(counts, ms[right].key);
      if right > 0 { StillOutside(ms, window, right); }
      left, counts := DropOutside(ms, window, right, left, counts);
      CountsSize(ms, left, right + 1, counts);
      BestCases(ms, window, right + 1);
      if |counts| > 0 && |counts| >= bestScore {
        bestScore, best := |counts|, Some(Group(left, right));
      }
    }
  }

  lemma NoMatchesYet(ms: seq<Match>, window: nat)
    ensures Counts(ms, 0, 0, map[]) && Best(ms, window, 0) == None
  {}

  lemma NonEmptyCounts(ms: seq<Match>, from: nat, until: nat)
    requires from <= until <= |ms|
    ensures |KeysIn(ms, from, until)| > 0 <==> from < until
  {
    if from < until { assert ms[from].key in KeysIn(ms, from, until); }
  }

  lemma LeftmostIs(ms: seq<Match>, window: nat, last: nat, l: nat)
    requires last < |ms| && l <= last + 1 && (l <= last ==> ms[last].end - ms[l].start <= window)
    requires forall k :: 0 <= k < l ==> ms[last].end - ms[k].start > window
    ensures Leftmost(ms, window, last, 0) == l
  {
    var m := Leftmost(ms, window, last, 0);
  }

  // ---------------------------------------------------------------- the excerpt

  function Max(a: int, b: int): int { if a < b then b else a }

  function Min(a: int, b: int): int { if a < b then a else b }

  function MatchesOf(lex: Lexicon, text: string, wanted: set<string>): seq<Match> {
    WordsAreRuns(lex, text);
    Matching(lex, text, Words(lex, text), wanted)
  }

  /** Where the window begins, given the best group's span. */
  function WindowStart(size: nat, window: nat, start: nat, end: nat): (r: nat)
    requires window < size
    ensures r + window <= size
  {
    Min(Max(Max(0, end - window), start - window / 4), Max(0, size - window))
  }

  function Excerpt(lex: Lexicon, text: string, terms: seq<string>, window: nat): string {
    if |text| <= window || terms == [] then (if |text| <= window then text else text[..window])
    else
      var ms := MatchesOf(lex, text, Elements(terms));
      var best := Best(ms, window, |ms|);
      var start := if best.None? then WindowStart(|text|, window, 0, 0)
                   else WindowStart(|text|, window, ms[best.value.first].start, ms[best.value.last].end);
      text[start..start + window]
  }

  method CollectMatches(lex: Lexicon, text: string, wanted: set<string>) returns (matches: seq<Match>)
    requires !lex.isWord(' ')
    ensures matches == MatchesOf(lex, text, wanted) && Ascending(matches) && InSpan(text, matches)
  {
    var words := ScanWords(lex, text);
    WordsAreRuns(lex, text);
    hide Words, Ascending, Run;
    matches := [];
    for i := 0 to |words|
      invariant InText(text, words[..i]) && matches == Matching(lex, text, words[..i], wanted)
    {
      var s := words[i];
      MatchingLast(lex, text, words[..i+1], wanted);
      assert words[..i+1][..i] == words[..i];
      if KeyOf(lex, text, s) in wanted {
        matches := matches + [Match(s.start, s.end, KeyOf(lex, text, s))];
      }
    }
    assert words[..|words|] == words;
    MatchesFacts(lex, text, wanted);
  }

  ghost predicate InSpan(text: string, ms: seq<Match>) {
    forall i :: 0 <= i < |ms| ==> ms[i].start < ms[i].end <= |text|
  }

  lemma MatchesFacts(lex: Lexicon, text: string, wanted: set<string>)
    ensures var ms := MatchesOf(lex, text, wanted);
            Ascending(ms) && InSpan(text, ms) && AllMark(lex, text, wanted, Words(lex, text), ms)
  {
    WordsAreRuns(lex, text);
    MatchingFacts(lex, text, Words(lex, text), wanted);
    BoundedMatches(lex, text, wanted, Words(lex, text), MatchesOf(lex, text, wanted));
  }

  /** The matching loop, the sliding window and the cut. */
  method ExcerptForQuery(lex: Lexicon, text: string, terms: seq<string>, window: nat) returns (excerpt: string)
    requires !lex.isWord(' ')
    ensures excerpt == Excerpt(lex, text, terms, window)
  {
    hide MatchesOf, Best, Ascending;
    if |text| <= window || terms == [] {
      return if |text| <= window then text else text[..window];
    }
    var matches := CollectMatches(lex, text, Elements(terms));
    var best := SlideWindow(matches, window);
    var bestStart, bestEnd := 0, 0;
    if best.Some? {
      bestStart, bestEnd := matches[best.value.first].start, matches[best.value.last].end;
    }
    var start := Max(Max(0, bestEnd - window), bestStart - window / 4);
    start := Min(start, Max(0, |text| - window));
    excerpt := text[start..start + window];
  }

  /** A contiguous piece of the text. */
  ghost predicate PieceOf(piece: string, text: string) {
    exists i :: PieceAt(piece, text, i)
  }

  ghost predicate PieceAt(piece: string, text: string, i: nat) {
    i + |piece| <= |text| && text[i..i + |piece|] == piece
  }

  lemma ExcerptIsPiece(lex: Lexicon, text: string, terms: seq<string>, window: nat)
    ensures PieceOf(Excerpt(lex, text, terms, window), text)
    ensures |Excerpt(lex, text, terms, window)| == Min(|text|, window)
    ensures |text| <= window || terms == [] ==> Excerpt(lex, text, terms, window) <= text
  {
    var e := Excerpt(lex, text, terms, window);
    if |text| <= window || terms == [] {
      assert PieceAt(e, text, 0);
    } else {
      hide Matching, Best, Words, WindowStart;
      var ms := MatchesOf(lex, text, Elements(terms));
      var best := Best(ms, window, |ms|);
      var start := if best.None? then WindowStart(|text|, window, 0, 0)
                   else WindowStart(|text|, window, ms[best.value.first].start, ms[best.value.last].end);
      assert PieceAt(e, text, start);
    }
  }

  /**
   * The window holds the whole group it was placed for.  It begins at most a quarter window before the
   * group unless the text ends first, and at the earliest place that allows both.
   */
  lemma WindowHoldsGroup(size: nat, window: nat, start: nat, end: nat)
    requires window < size && start <= end <= size && end - start <= window
    ensures var r := WindowStart(size, window, start, end);
            && r <= start && end <= r + window && (r + window == size || start - r <= window / 4)
            && (r == 0 || r + window == end || start - r == window / 4 || r + window == size)
  {}

  /** How many of the terms occur in a text: `relevance`. */
  function FoundKeys(lex: Lexicon, text: string, terms: seq<string>): set<string> {
    WordsAreRuns(lex, text);
    set s | s in Words(lex, text) && KeyOf(lex, text, s) in terms :: KeyOf(lex, text, s)
  }

  function Relevance(lex: Lexicon, text: string, terms: seq<string>): nat {
    |FoundKeys(lex, text, terms)|
  }

  /** A word wholly inside a window is still a word there, with the same key. */
  lemma WordInWindow(lex: Lexicon, text: string, start: nat, window: nat, s: Span)
    requires start + window <= |text| && Run(lex, text, s) && start <= s.start && s.end <= start + window
    ensures var piece := text[start..start + window];
            && Span(s.start - start, s.end - start) in Words(lex, piece)
            && piece[s.start - start..s.end - start] == text[s.start..s.end]
  {
    RunInPiece(lex, text, start, window, s);
    WordsAreRuns(lex, text[start..start + window]);
    hide *;
    SliceOfSlice(text, start, window, s.start - start, s.end - start);
  }

  lemma RunInPiece(lex: Lexicon, text: string, start: nat, window: nat, s: Span)
    requires start + window <= |text| && Run(lex, text, s) && start <= s.start && s.end <= start + window
    ensures Run(lex, text[start..start + window], Span(s.start - start, s.end - start)) && s.start <= s.end
  {
    var piece := text[start..start + window];
    assert forall k :: 0 <= k < window ==> piece[k] == text[start + k];
    forall k | s.start - start <= k < s.end - start ensures lex.isWord(piece[k]) {
      assert lex.isWord(text[start + k]);
    }
  }

  lemma SliceOfSlice(text: string, start: nat, window: nat, a: nat, b: nat)
    requires start + window <= |text| && a <= b <= window
    ensures text[start..start + window][a..b] == text[start + a..start + b]
  {
    var left, right := text[start..start + window][a..b], text[start + a..start + b];
    assert |left| == |right|;
    forall k | 0 <= k < |left| ensures left[k] == right[k] {}
    assert left == right;
  }

  /**
   * The excerpt is at least as relevant as any group of matches that fits in a window of that size:
   * the sliding window loses nothing against trying every range of matches.
   */
  lemma ExcerptIsMostRelevant(lex: Lexicon, text: string, terms: seq<string>, window: nat, g: Group)
    requires |text| > window && terms != []
    requires FitsIn(MatchesOf(lex, text, Elements(terms)), window, g)
    ensures Relevance(lex, Excerpt(lex, text, terms, window), terms) >= Score(MatchesOf(lex, text, Elements(terms)), g)
  {
    hide *;
    var ms := MatchesOf(lex, text, Elements(terms));
    MatchesFacts(lex, text, Elements(terms));
    BestBeats(ms, window, g);
    var best := Best(ms, window, |ms|);
    GroupSpan(text, ms, window, best.value);
    var a, b := ms[best.value.first].start, ms[best.value.last].end;
    WindowHoldsGroup(|text|, window, a, b);
    ExcerptAt(lex, text, terms, window);
    GroupIsFound(lex, text, terms, window, ms, best.value, WindowStart(|text|, window, a, b));
  }

  lemma BestBeats(ms: seq<Match>, window: nat, g: Group)
    requires FitsIn(ms, window, g)
    ensures g.first <= g.last < |ms| && Best(ms, window, |ms|).Some?
    ensures Score(ms, g) <= Score(ms, Best(ms, window, |ms|).value) && FitsIn(ms, window, Best(ms, window, |ms|).value)
  {
    BestIsOptimal(ms, window, |ms|);
    hide Best, Score;
  }

  lemma ExcerptAt(lex: Lexicon, text: string, terms: seq<string>, window: nat)
    requires |text| > window && terms != []
    ensures var ms := MatchesOf(lex, text, Elements(terms));
            var best := Best(ms, window, |ms|);
            best.Some? ==>
              var start := WindowStart(|text|, window, ms[best.value.first].start, ms[best.value.last].end);
              Excerpt(lex, text, terms, window) == text[start..start + window]
  {
    hide MatchesOf, Best, WindowStart;
  }

  lemma GroupSpan(text: string, ms: seq<Match>, window: nat, g: Group)
    requires Ascending(ms) && InSpan(text, ms) && FitsIn(ms, window, g)
    ensures g.first <= g.last < |ms| && ms[g.first].start < ms[g.last].end <= |text|
    ensures ms[g.last].end - ms[g.first].start <= window
  {}

  lemma BoundedMatches(lex: Lexicon, text: string, wanted: set<string>, words: seq<Span>, ms: seq<Match>)
    requires AllMark(lex, text, wanted, words, ms)
    ensures forall i :: 0 <= i < |ms| ==> ms[i].start < ms[i].end <= |text|
  {
    forall i | 0 <= i < |ms| ensures ms[i].start < ms[i].end <= |text| {
      assert ms[i] in ms;
    }
  }

  lemma GroupIsFound(lex: Lexicon, text: string, terms: seq<string>, window: nat, ms: seq<Match>, g: Group, start: nat)
    requires Ascending(ms) && AllMark(lex, text, Elements(terms), Words(lex, text), ms) && g.first <= g.last < |ms|
    requires start + window <= |text| && start <= ms[g.first].start && ms[g.last].end <= start + window
    ensures Relevance(lex, text[start..start + window], terms) >= Score(ms, g)
  {
    var piece := text[start..start + window];
    forall i | g.first <= i <= g.last ensures ms[i].key in FoundKeys(lex, piece, terms) {
      hide Ascending, AllMark;
      MatchInWindow(ms, g, i);
      MarkIsFound(lex, text, terms, start, window, ms, i);
    }
    hide *;
    assert KeysIn(ms, g.first, g.last + 1) <= FoundKeys(lex, piece, terms) by {
      KeysSubset(ms, g, FoundKeys(lex, piece, terms));
    }
    SubsetSmaller(KeysIn(ms, g.first, g.last + 1), FoundKeys(lex, piece, terms));
    ScoreAndRelevance(lex, piece, terms, ms, g);
  }

  lemma ScoreAndRelevance(lex: Lexicon, text: string, terms: seq<string>, ms: seq<Match>, g: Group)
    requires g.first <= g.last < |ms|
    ensures Score(ms, g) == |KeysIn(ms, g.first, g.last + 1)|
            && Relevance(lex, text, terms) == |FoundKeys(lex, text, terms)|
  {
    hide KeysIn, FoundKeys;
  }

  lemma KeysSubset(ms: seq<Match>, g: Group, found: set<string>)
    requires g.first <= g.last < |ms| && forall i :: g.first <= i <= g.last ==> ms[i].key in found
    ensures KeysIn(ms, g.first, g.last + 1) <= found
  {}

  lemma MarkIsFound(lex: Lexicon, text: string, terms: seq<string>, start: nat, window: nat, ms: seq<Match>, i: nat)
    requires i < |ms| && AllMark(lex, text, Elements(terms), Words(lex, text), ms)
    requires start + window <= |text| && start <= ms[i].start && ms[i].end <= start + window
    ensures ms[i].key in FoundKeys(lex, text[start..start + window], terms)
  {
    var piece, m := text[start..start + window], ms[i];
    assert m in ms && Marks(lex, text, Elements(terms), m);
    var s := Span(m.start, m.end);
    WordInWindow(lex, text, start, window, s);
    WordsAreRuns(lex, piece);
    hide Run, Words;
    assert KeyOf(lex, piece, Span(m.start - start, m.end - start)) == m.key;
  }

  lemma MatchInWindow(ms: seq<Match>, g: Group, i: nat)
    requires Ascending(ms) && g.first <= i <= g.last < |ms|
    ensures ms[g.first].start <= ms[i].start && ms[i].end <= ms[g.last].end
  {}
}
