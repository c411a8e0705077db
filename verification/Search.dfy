/** Lexical search over one snapshot and its linked later mentions (packages/python/src/cci/search.py). */
module Search {
  import opened Wrappers
  import opened Sequences
  import opened Records
  import Relevance
  import Stemming
  import opened Retrieval

  const MAX_LINKED: nat := 2

  /** Word characters and folding; full-text tokens are taken to be the folded words. */
  datatype Tokens = Tokens(isWord: char -> bool, fold: string -> string)
  {
    /** The lexicon excerpts are cut with: folding, then the inflection key. */
    function Lexicon(): Relevance.Lexicon {
      Relevance.Lexicon(isWord, (w: string) => Stemming.Key(fold(w)))
    }
  }

  // ---------------------------------------------------------------- what a row scores

  function FoldedFrom(tk: Tokens, text: string, spans: seq<Relevance.Span>): seq<string>
    requires Relevance.InText(text, spans)
  {
    if spans == [] then []
    else
      var last := spans[|spans|-1];
      FoldedFrom(tk, text, spans[..|spans|-1]) + [tk.fold(text[last.start..last.end])]
  }

  /** The folded words of a text. */
  function Folded(tk: Tokens, text: string): seq<string> {
    Relevance.WordsAreRuns(tk.Lexicon(), text);
    FoldedFrom(tk, text, Relevance.Words(tk.Lexicon(), text))
  }

  /** How many of the terms have a full-text match in the projected text. */
  function Score(tk: Tokens, m: Message, terms: seq<string>): nat {
    if m.text.None? then 0 else Stemming.Hits(Folded(tk, m.text.value), terms)
  }

  lemma {:induction false} FoldedFacts(tk: Tokens, text: string, spans: seq<Relevance.Span>)
    requires Relevance.InText(text, spans)
    ensures forall w :: w in FoldedFrom(tk, text, spans) <==>
                        exists i :: 0 <= i < |spans| && w == tk.fold(text[spans[i].start..spans[i].end])
  {
    if spans != [] {
      var init, last := spans[..|spans|-1], spans[|spans|-1];
      assert spans == init + [last] && last in spans;
      FoldedFacts(tk, text, init);
      forall w | w in FoldedFrom(tk, text, spans)
        ensures exists i :: 0 <= i < |spans| && w == tk.fold(text[spans[i].start..spans[i].end]) {
        if w in FoldedFrom(tk, text, init) {
          var i :| 0 <= i < |init| && w == tk.fold(text[init[i].start..init[i].end]);
          assert spans[i] == init[i];
        } else {
          assert spans[|init|] == last;
        }
      }
    }
  }

  /** The keys of the folded words are the keys the excerpt code sees. */
  lemma FoundIsKeys(tk: Tokens, text: string, terms: seq<string>)
    ensures Relevance.FoundKeys(tk.Lexicon(), text, terms) == Elements(terms) * Stemming.KeysOf(Folded(tk, text))
  {
    var lex := tk.Lexicon();
    var spans, folded := Relevance.Words(lex, text), Folded(tk, text);
    Relevance.WordsAreRuns(lex, text);
    FoldedFacts(tk, text, spans);
    hide Relevance.Words, FoldedFrom, Stemming.Key, Relevance.Run;
    forall k | k in Relevance.FoundKeys(lex, text, terms) ensures k in Elements(terms) && k in Stemming.KeysOf(folded) {
      var s :| s in spans && Relevance.KeyOf(lex, text, s) == k && k in terms;
      assert tk.fold(text[s.start..s.end]) in folded;
    }
    forall k | k in Elements(terms) && k in Stemming.KeysOf(folded) ensures k in Relevance.FoundKeys(lex, text, terms) {
      var w :| w in folded && Stemming.Key(w) == k;
      var i :| 0 <= i < |spans| && w == tk.fold(text[spans[i].start..spans[i].end]);
      assert spans[i] in spans && Relevance.KeyOf(lex, text, spans[i]) == k;
    }
  }

  /** The count search ranks by is the relevance of the projected text, when every term's forms are complete. */
  lemma ScoreIsRelevance(tk: Tokens, m: Message, terms: seq<string>)
    requires NoDup(terms) && m.text.Some?
    ensures Score(tk, m, terms) <= Relevance.Relevance(tk.Lexicon(), m.text.value, terms)
    ensures (forall t :: t in terms ==> Stemming.Complete(t)) ==>
              Score(tk, m, terms) == Relevance.Relevance(tk.Lexicon(), m.text.value, terms)
  {
    Stemming.HitsAreRelevance(Folded(tk, m.text.value), terms);
    FoundIsKeys(tk, m.text.value, terms);
    hide Stemming.Hits, Relevance.FoundKeys, Folded, Stemming.Complete, NoDup;
  }

  // ---------------------------------------------------------------- the ranking

  function Matched(tk: Tokens, messages: seq<Message>, terms: seq<string>): seq<Message> {
    if messages == [] then []
    else
      var last := messages[|messages|-1];
      Matched(tk, messages[..|messages|-1], terms) + (if Score(tk, last, terms) > 0 then [last] else [])
  }

  function Recent(): Message -> int {
    (m: Message) => 0 - m.seqNo as int
  }

  function Weight(tk: Tokens, terms: seq<string>): Message -> int {
    (m: Message) => 0 - Score(tk, m, terms) as int
  }

  /** Most matches first, then most recent: the query's `ORDER BY matches DESC, seq DESC`. */
  function Order(tk: Tokens, messages: seq<Message>, terms: seq<string>): seq<Message> {
    SortBy(Weight(tk, terms), SortBy(Recent(), Matched(tk, messages, terms)))
  }

  function Top(tk: Tokens, messages: seq<Message>, terms: seq<string>, limit: nat): seq<Message> {
    var all := Order(tk, messages, terms);
    if |all| <= limit then all else all[..limit]
  }

  ghost predicate LexSorted<T(!new)>(first: T -> int, second: T -> int, s: seq<T>) {
    forall i, j :: 0 <= i < j < |s| ==> LexLe(first, second, s[i], s[j])
  }

  ghost predicate LexLe<T>(first: T -> int, second: T -> int, a: T, b: T) {
    first(a) < first(b) || (first(a) == first(b) && second(a) <= second(b))
  }

  /** A stable sort keeps the earlier order among equals. */
  lemma {:induction false} StableSort<T(!new)>(first: T -> int, second: T -> int, s: seq<T>)
    requires SortedBy(second, s)
    ensures LexSorted(first, second, SortBy(first, s))
  {
    if s != [] {
      assert s == [s[0]] + s[1..];
      assert SortedBy(second, s[1..]);
      StableSort(first, second, s[1..]);
      SortByFacts(first, s[1..]);
      InsertLex(first, second, s[0], SortBy(first, s[1..]));
    }
  }

  lemma {:induction false} InsertLex<T(!new)>(first: T -> int, second: T -> int, x: T, r: seq<T>)
    requires LexSorted(first, second, r) && forall y :: y in r ==> second(x) <= second(y)
    ensures LexSorted(first, second, InsertBy(first, x, r))
    ensures forall y :: y in InsertBy(first, x, r) ==> y == x || y in r
  {
    if r != [] && first(x) > first(r[0]) {
      var rest := r[1..];
      assert r == [r[0]] + rest;
      InsertLex(first, second, x, rest);
      var ins := InsertBy(first, x, rest);
      forall j | 0 <= j < |ins| ensures LexLe(first, second, r[0], ins[j]) {
        assert ins[j] in ins;
        if ins[j] != x {
          var k :| 0 <= k < |rest| && rest[k] == ins[j];
          assert LexLe(first, second, r[0], r[k+1]);
        }
      }
      LexCons(first, second, r[0], ins);
    } else {
      forall j | 0 <= j < |r| ensures LexLe(first, second, x, r[j]) {
        assert r[j] in r && (j > 0 ==> LexLe(first, second, r[0], r[j]));
      }
      LexCons(first, second, x, r);
    }
  }

  lemma LexCons<T(!new)>(first: T -> int, second: T -> int, x: T, r: seq<T>)
    requires LexSorted(first, second, r) && forall j :: 0 <= j < |r| ==> LexLe(first, second, x, r[j])
    ensures LexSorted(first, second, [x] + r)
  {
    hide LexLe;
  }

  lemma {:induction false} MatchedFacts(tk: Tokens, messages: seq<Message>, terms: seq<string>)
    ensures forall m :: m in Matched(tk, messages, terms) <==> m in messages && Score(tk, m, terms) > 0
  {
    hide Score;
    if messages != [] {
      MatchedFacts(tk, messages[..|messages|-1], terms);
      assert messages == messages[..|messages|-1] + [messages[|messages|-1]];
    }
  }

  /** `a` outranks `b`: more matching terms, or as many and not older. */
  ghost predicate Outranks(tk: Tokens, terms: seq<string>, a: Message, b: Message) {
    Score(tk, a, terms) > Score(tk, b, terms) || (Score(tk, a, terms) == Score(tk, b, terms) && a.seqNo >= b.seqNo)
  }

  ghost predicate BestFirst(tk: Tokens, terms: seq<string>, s: seq<Message>) {
    forall i, j :: 0 <= i < j < |s| ==> Outranks(tk, terms, s[i], s[j])
  }

  lemma OrderFacts(tk: Tokens, messages: seq<Message>, terms: seq<string>)
    ensures BestFirst(tk, terms, Order(tk, messages, terms))
    ensures forall m :: m in Order(tk, messages, terms) <==> m in messages && Score(tk, m, terms) > 0
  {
    var matched, all := Matched(tk, messages, terms), Order(tk, messages, terms);
    MatchedFacts(tk, messages, terms);
    SortByFacts(Recent(), matched);
    SortByFacts(Weight(tk, terms), SortBy(Recent(), matched));
    StableSort(Weight(tk, terms), Recent(), SortBy(Recent(), matched));
    hide Score, SortBy, Matched;
    forall i, j | 0 <= i < j < |all| ensures Outranks(tk, terms, all[i], all[j]) {
      assert LexLe(Weight(tk, terms), Recent(), all[i], all[j]);
    }
  }

  /**
   * The rows taken are matching rows, best first, and every matching row left out is outranked by every
   * row taken: the limit is applied after the counting.
   */
  lemma TopIsBest(tk: Tokens, messages: seq<Message>, terms: seq<string>, limit: nat)
    ensures var top := Top(tk, messages, terms, limit);
            && |top| <= limit && (forall m :: m in top ==> m in messages && Score(tk, m, terms) > 0)
            && BestFirst(tk, terms, top)
            && (forall a, b :: a in top && b in messages && Score(tk, b, terms) > 0 && b !in top ==>
                  Outranks(tk, terms, a, b))
            && (|top| < limit ==> forall b :: b in messages && Score(tk, b, terms) > 0 ==> b in top)
  {
    var all, top := Order(tk, messages, terms), Top(tk, messages, terms, limit);
    OrderFacts(tk, messages, terms);
    assert top == all[..|top|] && (|top| < limit ==> top == all);
    hide Score, Order, Outranks, Top;
    forall m | m in top ensures m in all {}
    BestFirstPrefix(tk, terms, all, |top|);
    forall a, b | a in top && b in messages && Score(tk, b, terms) > 0 && b !in top ensures Outranks(tk, terms, a, b) {
      LeftOutIsOutranked(tk, terms, all, |top|, a, b);
    }
  }

  lemma BestFirstPrefix(tk: Tokens, terms: seq<string>, all: seq<Message>, n: nat)
    requires BestFirst(tk, terms, all) && n <= |all|
    ensures BestFirst(tk, terms, all[..n])
  {
    hide Outranks;
  }

  lemma LeftOutIsOutranked(tk: Tokens, terms: seq<string>, all: seq<Message>, n: nat, a: Message, b: Message)
    requires BestFirst(tk, terms, all) && n <= |all| && a in all[..n] && b in all && b !in all[..n]
    ensures Outranks(tk, terms, a, b)
  {
    hide Outranks;
    var i :| 0 <= i < n && all[i] == a;
    var j := PositionAfter(all, n, b);
  }

  lemma PositionAfter(all: seq<Message>, n: nat, b: Message) returns (j: nat)
    requires n <= |all| && b in all && b !in all[..n]
    ensures n <= j < |all| && all[j] == b
  {
    assert all == all[..n] + all[n..];
    assert b in all[n..];
    var k :| 0 <= k < |all[n..]| && all[n..][k] == b;
    j := n + k;
  }

  // ---------------------------------------------------------------- the part to quote

  datatype Part = Part(pointer: Pointer, text: string)

  function BlockParts(blocks: seq<Block>): seq<Part> {
    if blocks == [] then []
    else
      var last := blocks[|blocks|-1];
      BlockParts(blocks[..|blocks|-1]) + (if last.TextBlock? then [Part(BlockAt(|blocks|-1), last.text)] else [])
  }

  function TextParts(p: Payload): seq<Part> {
    match p.content
    case NoContent => []
    case Plain(text) => [Part(Whole, text)]
    case Blocks(blocks) => BlockParts(blocks)
  }

  /** Pointers in the order of the text they name. */
  function PointerRank(p: Pointer): nat {
    match p
    case Whole => 0
    case BlockAt(i) => i + 1
  }

  ghost predicate InTextOrder(parts: seq<Part>) {
    forall k, l :: 0 <= k < l < |parts| ==> PointerRank(parts[k].pointer) < PointerRank(parts[l].pointer)
  }

  /** The text block at this position is this part. */
  ghost predicate IsBlockPart(blocks: seq<Block>, part: Part) {
    && part.pointer.BlockAt? && part.pointer.index < |blocks|
    && blocks[part.pointer.index].TextBlock? && blocks[part.pointer.index].text == part.text
  }

  lemma {:induction false} BlockPartsExact(blocks: seq<Block>)
    ensures InTextOrder(BlockParts(blocks))
    ensures forall part :: part in BlockParts(blocks) <==> IsBlockPart(blocks, part)
  {
    if blocks != [] {
      var init, n := blocks[..|blocks|-1], |blocks| - 1;
      BlockPartsExact(init);
      var before := BlockParts(init);
      forall part ensures IsBlockPart(blocks, part) <==>
                          IsBlockPart(init, part)
                            || (blocks[n].TextBlock? && part == Part(BlockAt(n), blocks[n].text)) {}
      if blocks[n].TextBlock? {
        assert BlockParts(blocks) == before + [Part(BlockAt(n), blocks[n].text)];
        forall part | part in before ensures PointerRank(part.pointer) < PointerRank(BlockAt(n)) {
          assert IsBlockPart(init, part);
        }
        hide IsBlockPart, BlockParts;
        OneMoreInOrder(before, Part(BlockAt(n), blocks[n].text));
      } else {
        assert BlockParts(blocks) == before;
        hide IsBlockPart, BlockParts, InTextOrder;
      }
    }
  }

  lemma OneMoreInOrder(before: seq<Part>, last: Part)
    requires InTextOrder(before) && forall p :: p in before ==> PointerRank(p.pointer) < PointerRank(last.pointer)
    ensures InTextOrder(before + [last])
  {
    forall k | 0 <= k < |before| ensures PointerRank(before[k].pointer) < PointerRank(last.pointer) {
      assert before[k] in before;
    }
  }

  /** The parts are exactly the texts that pointers name, in text order. */
  lemma TextPartsExact(p: Payload)
    ensures InTextOrder(TextParts(p))
    ensures forall part :: part in TextParts(p) <==> TextAt(p, part.pointer) == Some(part.text)
  {
    if p.content.Blocks? { BlockPartsExact(p.content.blocks); }
  }

  function Matching(lex: Relevance.Lexicon, m: Message, terms: seq<string>, p: Pointer): nat {
    if TextAt(m.payload, p).Some? then Relevance.Relevance(lex, TextAt(m.payload, p).value, terms) else 0
  }

  /** A text of the message stands there, the first of its most relevant ones. */
  ghost predicate MostRelevant(lex: Relevance.Lexicon, m: Message, terms: seq<string>, p: Pointer) {
    && TextAt(m.payload, p).Some?
    && (forall x :: TextAt(m.payload, x).Some? ==> Matching(lex, m, terms, x) <= Matching(lex, m, terms, p))
    && (forall x :: TextAt(m.payload, x).Some? && PointerRank(x) < PointerRank(p) ==>
          Matching(lex, m, terms, x) < Matching(lex, m, terms, p))
  }

  lemma FirstBest(lex: Relevance.Lexicon, m: Message, terms: seq<string>, parts: seq<Part>, best: nat)
    requires parts == TextParts(m.payload) && best < |parts|
    requires forall j :: 0 <= j < |parts| ==> Relevance.Relevance(lex, parts[j].text, terms) <=
                                              Relevance.Relevance(lex, parts[best].text, terms)
    requires forall j :: 0 <= j < best ==> Relevance.Relevance(lex, parts[j].text, terms) <
                                           Relevance.Relevance(lex, parts[best].text, terms)
    ensures MostRelevant(lex, m, terms, parts[best].pointer) && parts[best] in parts
  {
    TextPartsExact(m.payload);
    hide TextParts, Relevance.Relevance;
    assert parts[best] in parts;
    forall x | TextAt(m.payload, x).Some?
      ensures Matching(lex, m, terms, x) <= Matching(lex, m, terms, parts[best].pointer)
      ensures PointerRank(x) < PointerRank(parts[best].pointer) ==>
                Matching(lex, m, terms, x) < Matching(lex, m, terms, parts[best].pointer)
    {
      var j := PartAt(m.payload, parts, x);
    }
  }

  lemma PartAt(p: Payload, parts: seq<Part>, x: Pointer) returns (j: nat)
    requires InTextOrder(parts) && TextAt(p, x).Some?
    requires forall part :: part in parts <==> TextAt(p, part.pointer) == Some(part.text)
    ensures j < |parts| && parts[j].pointer == x && TextAt(p, x) == Some(parts[j].text)
  {
    assert Part(x, TextAt(p, x).value) in parts;
    j :| 0 <= j < |parts| && parts[j] == Part(x, TextAt(p, x).value);
  }

  /** The candidate for a row: its most relevant text, the first among equals, if any text is relevant at all. */
  method CandidateFromRow(lex: Relevance.Lexicon, m: Message, terms: seq<string>, excerptTerms: seq<string>)
    returns (c: Option<Candidate>)
    ensures c.Some? <==> exists p :: Matching(lex, m, terms, p) > 0
    ensures c.Some? ==>
              && MostRelevant(lex, m, terms, c.value.pointer) && TextAt(m.payload, c.value.pointer).Some?
              && c.value == Candidate(m.id, m.seqNo, c.value.pointer,
                                      Relevance.Excerpt(lex, TextAt(m.payload, c.value.pointer).value, excerptTerms,
                                                        200),
                                      if m.text.Some? then m.text.value else "")
              && Relevance.PieceOf(c.value.excerpt, TextAt(m.payload, c.value.pointer).value)
  {
    var parts := TextParts(m.payload);
    TextPartsExact(m.payload);
    if parts == [] {
      assert forall p :: TextAt(m.payload, p).None? by { NoTexts(m.payload); }
      return None;
    }
    hide Relevance.Relevance, TextParts, Relevance.Excerpt;
    var best := 0;
    for i := 1 to |parts|
      invariant best < i
      invariant forall j :: 0 <= j < i ==>
                  Relevance.Relevance(lex, parts[j].text, terms) <= Relevance.Relevance(lex, parts[best].text, terms)
      invariant forall j :: 0 <= j < best ==>
                  Relevance.Relevance(lex, parts[j].text, terms) < Relevance.Relevance(lex, parts[best].text, terms)
    {
      if Relevance.Relevance(lex, parts[i].text, terms) > Relevance.Relevance(lex, parts[best].text, terms) {
        best := i;
      }
    }
    FirstBest(lex, m, terms, parts, best);
    if Relevance.Relevance(lex, parts[best].text, terms) == 0 {
      return None;
    }
    assert Matching(lex, m, terms, parts[best].pointer) > 0;
    Relevance.ExcerptIsPiece(lex, parts[best].text, excerptTerms, 200);
    c := Some(Candidate(m.id, m.seqNo, parts[best].pointer, Relevance.Excerpt(lex, parts[best].text, excerptTerms, 200),
                        if m.text.Some? then m.text.value else ""));
  }

  lemma NoTexts(p: Payload)
    requires TextParts(p) == []
    ensures forall x :: TextAt(p, x).None?
  {
    TextPartsExact(p);
    hide TextParts;
    forall x ensures TextAt(p, x).None? {
      if TextAt(p, x).Some? {
        var j := PartAt(p, TextParts(p), x);
        assert false;
      }
    }
  }

  // ---------------------------------------------------------------- linked later mentions

  datatype Anchor = Anchor(source: Candidate, word: string)

  /** Whether a row may be linked from a source: strictly newer, not linked yet, and a different text. */
  ghost predicate Linkable(view: (Message, string) -> Option<Candidate>, a: Anchor, row: Message,
                           taken: set<MessageId>) {
    && row.seqNo > a.source.seqNo && row.id !in taken
    && view(row, a.word).Some? && view(row, a.word).value.hash != a.source.hash
  }

  /** What the view makes of a row carries the row's identity. */
  ghost predicate Faithful(view: (Message, string) -> Option<Candidate>) {
    forall row, word :: view(row, word).Some? ==>
      view(row, word).value.messageId == row.id && view(row, word).value.seqNo == row.seqNo
  }

  function Taken(links: seq<Link>): set<MessageId> {
    set l | l in links :: l.linked.messageId
  }

  /** The rows as the query lists them: newest message first. */
  ghost predicate NewestFirst(rows: seq<Message>) {
    forall i, j :: 0 <= i < j < |rows| ==> rows[i].seqNo >= rows[j].seqNo
  }

  /** Row `k` is the first, hence the newest, the anchor may still be linked to. */
  ghost predicate FirstLinkable(view: (Message, string) -> Option<Candidate>, rows: seq<Message>, a: Anchor,
                                links: seq<Link>, k: nat)
  {
    && k < |rows| && Linkable(view, a, rows[k], Taken(links))
    && forall j :: 0 <= j < k ==> !Linkable(view, a, rows[j], Taken(links))
  }

  ghost predicate NoneLinkable(view: (Message, string) -> Option<Candidate>, rows: seq<Message>, a: Anchor,
                               links: seq<Link>) {
    forall j :: 0 <= j < |rows| ==> !Linkable(view, a, rows[j], Taken(links))
  }

  /** The anchor's link, given the links before it. */
  ghost predicate LinkedTo(view: (Message, string) -> Option<Candidate>, rows: seq<Message>, a: Anchor,
                           links: seq<Link>, link: Link)
  {
    exists k: nat :: FirstLinkable(view, rows, a, links, k) && link == Link(a.source, view(rows[k], a.word).value)
  }

  /** What one anchor does to the links: nothing when none of the rows will do, otherwise its own link is added. */
  ghost predicate AnchorStep(view: (Message, string) -> Option<Candidate>, rows: seq<Message>, a: Anchor,
                             before: seq<Link>, after: seq<Link>)
  {
    if after == before then NoneLinkable(view, rows, a, before)
    else |after| == |before| + 1 && before == after[..|before|] && LinkedTo(view, rows, a, before, after[|before|])
  }

  /** `marks[n]` counts the links made by the first `n` anchors; each anchor does what it should to them. */
  ghost predicate LinkedInOrder(view: (Message, string) -> Option<Candidate>, rows: seq<Message>, anchors: seq<Anchor>,
                                links: seq<Link>, marks: seq<nat>)
  {
    && 1 <= |marks| <= |anchors| + 1 && marks[0] == 0 && marks[|marks|-1] == |links|
    && (forall n :: 0 <= n < |marks| ==> marks[n] <= |links|)
    && forall n, m :: 0 <= n < |marks| - 1 && m == n + 1 ==>
         AnchorStep(view, rows, anchors[n], links[..marks[n]], links[..marks[m]])
  }

  /** The inner loop: the first row that may be linked. */
  method NewestRow(view: (Message, string) -> Option<Candidate>, rows: seq<Message>, a: Anchor, links: seq<Link>)
    returns (k: nat)
    ensures k <= |rows|
    ensures if k < |rows| then FirstLinkable(view, rows, a, links, k) else NoneLinkable(view, rows, a, links)
  {
    k := 0;
    var taken := Taken(links);
    while k < |rows|
      invariant k <= |rows| && forall j :: 0 <= j < k ==> !Linkable(view, a, rows[j], taken)
    {
      if rows[k].seqNo > a.source.seqNo && rows[k].id !in taken {
        var linked := view(rows[k], a.word);
        if linked.Some? && linked.value.hash != a.source.hash {
          return;
        }
      }
      k := k + 1;
    }
  }

  /**
   * The anchors are tried in order until two links are made or none is left.  Each anchor is linked to the
   * first row that is strictly newer, not linked yet and of another text, and passed over only when there
   * is none.
   */
  method LinkCorrections(view: (Message, string) -> Option<Candidate>, rows: seq<Message>, anchors: seq<Anchor>)
    returns (links: seq<Link>, ghost marks: seq<nat>)
    ensures LinkedInOrder(view, rows, anchors, links, marks)
    ensures |links| <= MAX_LINKED && (|links| == MAX_LINKED || |marks| == |anchors| + 1)
  {
    hide Linkable, Taken, AnchorStep, NoneLinkable, FirstLinkable, LinkedTo;
    links, marks := [], [0];
    var seen := 0;
    while seen < |anchors| && |links| < MAX_LINKED
      invariant seen <= |anchors| && |links| <= MAX_LINKED && |marks| == seen + 1
      invariant LinkedInOrder(view, rows, anchors, links, marks)
      decreases |anchors| - seen
    {
      var a := anchors[seen];
      var k := NewestRow(view, rows, a, links);
      ghost var before := links;
      if k < |rows| {
        LinkIsSome(view, rows, a, links, k);
        links := links + [Link(a.source, view(rows[k], a.word).value)];
        OneLink(view, rows, a, before, k, links);
      } else {
        NoLink(view, rows, a, before);
      }
      OneMoreAnchor(view, rows, anchors, before, marks, links);
      marks := marks + [|links|];
      seen := seen + 1;
    }
  }

  lemma LinkIsSome(view: (Message, string) -> Option<Candidate>, rows: seq<Message>, a: Anchor, links: seq<Link>,
                   k: nat)
    requires k < |rows| && FirstLinkable(view, rows, a, links, k)
    ensures view(rows[k], a.word).Some?
  {}

  lemma OneLink(view: (Message, string) -> Option<Candidate>, rows: seq<Message>, a: Anchor, before: seq<Link>, k: nat,
                after: seq<Link>)
    requires k < |rows| && FirstLinkable(view, rows, a, before, k) && view(rows[k], a.word).Some?
    requires after == before + [Link(a.source, view(rows[k], a.word).value)]
    ensures AnchorStep(view, rows, a, before, after) && |after| == |before| + 1 && before == after[..|before|]
  {
    hide FirstLinkable, Linkable, Taken;
    assert LinkedTo(view, rows, a, before, after[|before|]);
  }

  lemma NoLink(view: (Message, string) -> Option<Candidate>, rows: seq<Message>, a: Anchor, links: seq<Link>)
    requires NoneLinkable(view, rows, a, links)
    ensures AnchorStep(view, rows, a, links, links)
  {
    hide Linkable, Taken;
  }

  lemma OneMoreAnchor(view: (Message, string) -> Option<Candidate>, rows: seq<Message>, anchors: seq<Anchor>,
                      before: seq<Link>, marks: seq<nat>, after: seq<Link>)
    requires LinkedInOrder(view, rows, anchors, before, marks) && |marks| <= |anchors|
    requires AnchorStep(view, rows, anchors[|marks|-1], before, after) && before <= after
    ensures LinkedInOrder(view, rows, anchors, after, marks + [|after|])
  {
    hide AnchorStep;
    var more := marks + [|after|];
    assert before == after[..|before|] && after[..|after|] == after;
    forall n, m | 0 <= n < |more| - 1 && m == n + 1
      ensures AnchorStep(view, rows, anchors[n], after[..more[n]], after[..more[m]])
    {
      if m < |marks| {
        assert AnchorStep(view, rows, anchors[n], before[..marks[n]], before[..marks[m]]);
        assert after[..marks[n]] == before[..marks[n]] && after[..marks[m]] == before[..marks[m]];
      }
    }
  }

  // ---------------------------------------------------------------- what the links amount to

  /** The anchor behind a link: its place in the list, and in the order of links. */
  lemma {:induction false} AnchorOf(view: (Message, string) -> Option<Candidate>, rows: seq<Message>,
                                    anchors: seq<Anchor>, links: seq<Link>, marks: seq<nat>, i: nat)
    returns (n: nat)
    requires LinkedInOrder(view, rows, anchors, links, marks) && i < |links|
    ensures n < |marks| - 1 && marks[n] == i && marks[n + 1] == i + 1
    ensures LinkedTo(view, rows, anchors[n], links[..i], links[i])
  {
    hide LinkedTo, NoneLinkable;
    n := 0;
    while marks[n + 1] <= i
      invariant n < |marks| - 1 && marks[n] <= i
      decreases |marks| - n
    {
      n := n + 1;
    }
    assert AnchorStep(view, rows, anchors[n], links[..marks[n]], links[..marks[n + 1]]);
    assert marks[n] == i && marks[n + 1] == i + 1;
    assert links[..i + 1][i] == links[i];
  }

  /** What a link says: strictly later, another text, no message linked before, and none newer would have done. */
  lemma LinkedFacts(view: (Message, string) -> Option<Candidate>, rows: seq<Message>, a: Anchor, before: seq<Link>,
                    link: Link)
    requires Faithful(view) && LinkedTo(view, rows, a, before, link)
    ensures link.source == a.source && link.source.seqNo < link.linked.seqNo && link.source.hash != link.linked.hash
    ensures link.linked.messageId !in Taken(before)
    ensures exists row :: row in rows && row.id == link.linked.messageId && view(row, a.word) == Some(link.linked)
    ensures NewestFirst(rows) ==>
              forall row :: row in rows && Linkable(view, a, row, Taken(before)) ==> row.seqNo <= link.linked.seqNo
  {
    var k: nat :| FirstLinkable(view, rows, a, before, k) && link == Link(a.source, view(rows[k], a.word).value);
    assert rows[k] in rows;
    forall row | NewestFirst(rows) && row in rows && Linkable(view, a, row, Taken(before))
      ensures row.seqNo <= link.linked.seqNo
    {
      var j :| 0 <= j < |rows| && rows[j] == row;
      assert j >= k;
    }
  }

  /**
   * The links as a reader wants them: in the order of their anchors, one to an anchor at most, each from a
   * top hit to a strictly later message with another text, the newest that was not linked already, and no
   * message linked twice.
   */
  lemma LinksAreNewest(view: (Message, string) -> Option<Candidate>, rows: seq<Message>, anchors: seq<Anchor>,
                       links: seq<Link>, marks: seq<nat>, i: nat, j: nat)
    returns (n: nat, m: nat)
    requires Faithful(view) && NewestFirst(rows) && LinkedInOrder(view, rows, anchors, links, marks)
    requires i < j < |links|
    ensures n < m < |anchors| && links[i].source == anchors[n].source && links[j].source == anchors[m].source
    ensures links[i].linked.messageId != links[j].linked.messageId
    ensures links[j].source.seqNo < links[j].linked.seqNo && links[j].source.hash != links[j].linked.hash
    ensures forall row :: row in rows && Linkable(view, anchors[m], row, Taken(links[..j])) ==>
              row.seqNo <= links[j].linked.seqNo
  {
    hide Linkable, LinkedTo, Faithful, NewestFirst, AnchorStep;
    n := AnchorOf(view, rows, anchors, links, marks, i);
    m := AnchorOf(view, rows, anchors, links, marks, j);
    LinkedFacts(view, rows, anchors[n], links[..i], links[i]);
    LinkedFacts(view, rows, anchors[m], links[..j], links[j]);
    assert links[..j][i] == links[i];
    MarksAscend(view, rows, anchors, links, marks, n, m);
  }

  lemma {:induction false} MarksRise(view: (Message, string) -> Option<Candidate>, rows: seq<Message>,
                                     anchors: seq<Anchor>, links: seq<Link>, marks: seq<nat>, n: nat, m: nat)
    requires LinkedInOrder(view, rows, anchors, links, marks) && n <= m < |marks|
    ensures marks[n] <= marks[m]
    decreases m
  {
    if n < m {
      MarksRise(view, rows, anchors, links, marks, n, m - 1);
      assert AnchorStep(view, rows, anchors[m - 1], links[..marks[m - 1]], links[..marks[m]]);
    }
  }

  lemma MarksAscend(view: (Message, string) -> Option<Candidate>, rows: seq<Message>, anchors: seq<Anchor>,
                    links: seq<Link>, marks: seq<nat>, n: nat, m: nat)
    requires LinkedInOrder(view, rows, anchors, links, marks) && n < |marks| && m < |marks| && marks[n] < marks[m]
    ensures n < m
  {
    hide LinkedInOrder;
    if m <= n { MarksRise(view, rows, anchors, links, marks, m, n); }
  }
}
