/** The texts of a chunk, as candidates for quotation (packages/python/src/cci/tree_retrieval.py). */
module ChunkTexts {
  import opened Wrappers
  import opened Sequences
  import opened Records
  import opened Hierarchy
  import opened HierarchyReplan
  import Transactions
  import StoreInvariants
  import PublishInvariants
  import Relevance
  import Retrieval
  import Search

  const MAX_FETCHED: nat := 5000

  /** `part` is the excerpt window, `scalars` the evidence budget of one prompt. */
  datatype Bounds = Bounds(calls: nat, children: nat, scalars: nat, limit: nat, part: nat)

  /** The captured tree and the messages it indexes, up to the snapshot's bound. */
  datatype Captured = Captured(forest: Forest, messages: seq<Message>, maxSeq: nat)

  function OrEmpty(s: Option<string>): string {
    if s.Some? then s.value else ""
  }

  function NonEmpty(parts: seq<Search.Part>): seq<Search.Part> {
    if parts == [] then []
    else NonEmpty(parts[..|parts|-1]) + (if parts[|parts|-1].text != "" then [parts[|parts|-1]] else [])
  }

  /** The parts of one message that hold any text. */
  function Parts(p: Payload): seq<Search.Part> {
    NonEmpty(Search.TextParts(p))
  }

  datatype Query = Query(lex: Relevance.Lexicon, terms: seq<string>)

  function PartCandidate(q: Query, b: Bounds, m: Message, part: Search.Part): Retrieval.Candidate {
    Retrieval.Candidate(m.id, m.seqNo, part.pointer, Relevance.Excerpt(q.lex, part.text, q.terms, b.part),
                        OrEmpty(m.text))
  }

  function MessageCandidates(q: Query, b: Bounds, m: Message, parts: seq<Search.Part>): seq<Retrieval.Candidate> {
    if parts == [] then []
    else MessageCandidates(q, b, m, parts[..|parts|-1]) + [PartCandidate(q, b, m, parts[|parts|-1])]
  }

  function ManyCandidates(q: Query, b: Bounds, ms: seq<Message>): seq<Retrieval.Candidate> {
    if ms == [] then []
    else ManyCandidates(q, b, ms[..|ms|-1]) + MessageCandidates(q, b, ms[|ms|-1], Parts(ms[|ms|-1].payload))
  }

  /** The messages of one leaf's span, within the snapshot. */
  function ChunkMessages(t: Captured, id: Id): seq<Message> {
    if id !in t.forest.nodes then []
    else
      var n := t.forest.nodes[id];
      Transactions.PendingMessages(t.messages, n.lo, if n.hi <= t.maxSeq then n.hi else t.maxSeq)
  }

  function Fetched(ms: seq<Message>): seq<Message> {
    if |ms| <= MAX_FETCHED then ms else ms[..MAX_FETCHED]
  }

  function CandidatesOf(t: Captured, q: Query, b: Bounds, selected: seq<Id>): seq<Retrieval.Candidate> {
    if selected == [] then []
    else
      CandidatesOf(t, q, b, selected[..|selected|-1]) +
      ManyCandidates(q, b, Fetched(ChunkMessages(t, selected[|selected|-1])))
  }

  // ---------------------------------------------------------------- what there is to quote

  /** The message is in the leaf's span and within the snapshot. */
  ghost predicate InSpan(t: Captured, id: Id, m: Message) {
    && id in t.forest.nodes && m in t.messages
    && t.forest.nodes[id].lo <= m.seqNo <= t.forest.nodes[id].hi && m.seqNo <= t.maxSeq
  }

  /** A text of the message that is not empty stands there. */
  ghost predicate Quotable(m: Message, p: Pointer) {
    TextAt(m.payload, p).Some? && TextAt(m.payload, p).value != ""
  }

  lemma ChunkIsSpan(t: Captured, id: Id)
    ensures forall m :: m in ChunkMessages(t, id) <==> InSpan(t, id, m)
  {
    if id in t.forest.nodes {
      var n := t.forest.nodes[id];
      var last := if n.hi <= t.maxSeq then n.hi else t.maxSeq;
      PublishInvariants.InRangeFacts(t.messages, n.lo, last);
      SortByFacts((m: Message) => m.seqNo, Transactions.InRange(t.messages, n.lo, last));
    }
  }

  lemma {:induction false} NonEmptyExact(parts: seq<Search.Part>)
    ensures forall part :: part in NonEmpty(parts) <==> part in parts && part.text != ""
    ensures Search.InTextOrder(parts) ==> Search.InTextOrder(NonEmpty(parts))
  {
    if parts != [] {
      NonEmptyExact(parts[..|parts|-1]);
      assert parts == parts[..|parts|-1] + [parts[|parts|-1]];
      if Search.InTextOrder(parts) {
        forall part | part in NonEmpty(parts[..|parts|-1])
          ensures Search.PointerRank(part.pointer) < Search.PointerRank(parts[|parts|-1].pointer) {}
      }
    }
  }

  /** The parts quoted are exactly the texts there are, in text order. */
  lemma PartsExact(m: Message)
    ensures Search.InTextOrder(Parts(m.payload))
    ensures forall part :: part in Parts(m.payload) <==>
              Quotable(m, part.pointer) && TextAt(m.payload, part.pointer) == Some(part.text)
  {
    Search.TextPartsExact(m.payload);
    NonEmptyExact(Search.TextParts(m.payload));
    hide Search.TextParts, NonEmpty, Search.InTextOrder;
  }

  /** Every text of the chunk's messages fits its window, and all of its messages were fetched. */
  ghost predicate WholeChunk(t: Captured, b: Bounds, id: Id) {
    && |ChunkMessages(t, id)| < MAX_FETCHED
    && forall m :: InSpan(t, id, m) ==> WholeMessage(b, m)
  }

  ghost predicate WholeMessage(b: Bounds, m: Message) {
    forall p :: TextAt(m.payload, p).Some? ==> |TextAt(m.payload, p).value| <= b.part
  }

  ghost predicate AllWhole(t: Captured, b: Bounds, selected: seq<Id>) {
    forall id :: id in selected ==> WholeChunk(t, b, id)
  }

  lemma WholeMessageIs(b: Bounds, m: Message)
    ensures WholeMessage(b, m) <==> forall part :: part in Parts(m.payload) ==> |part.text| <= b.part
  {
    PartsExact(m);
    hide Parts;
    if forall part :: part in Parts(m.payload) ==> |part.text| <= b.part {
      forall p | TextAt(m.payload, p).Some? ensures |TextAt(m.payload, p).value| <= b.part {
        if Quotable(m, p) { assert Search.Part(p, TextAt(m.payload, p).value) in Parts(m.payload); }
      }
    }
  }

  /** A text that fits its window is returned whole. */
  lemma WholePart(q: Query, b: Bounds, m: Message, part: Search.Part)
    requires WholeMessage(b, m) && TextAt(m.payload, part.pointer) == Some(part.text)
    ensures PartCandidate(q, b, m, part).excerpt == part.text
  {}

  // ---------------------------------------------------------------- every text is quoted once, in order

  /** A text to quote: of a message fetched for the `chunk`-th selected leaf. */
  datatype Place = Place(chunk: nat, message: Message, pointer: Pointer)

  /** By chunk, then by message, then by place in the message. */
  ghost predicate Precedes(a: Place, b: Place) {
    || a.chunk < b.chunk
    || (a.chunk == b.chunk && a.message.seqNo < b.message.seqNo)
    || (a.chunk == b.chunk && a.message == b.message && Search.PointerRank(a.pointer) < Search.PointerRank(b.pointer))
  }

  /** The messages of the span numbered before this one. */
  ghost function Earlier(t: Captured, id: Id, m: Message): set<Message> {
    set n | n in t.messages && InSpan(t, id, n) && n.seqNo < m.seqNo
  }

  /** The message is among the first that are fetched for the leaf. */
  ghost predicate IsFetched(t: Captured, id: Id, m: Message) {
    InSpan(t, id, m) && |Earlier(t, id, m)| < MAX_FETCHED
  }

  /** The candidate quotes this text: an excerpt of it, or all of it if it fits. */
  ghost predicate QuoteOf(q: Query, b: Bounds, pl: Place, c: Retrieval.Candidate) {
    && Quotable(pl.message, pl.pointer)
    && var text := TextAt(pl.message.payload, pl.pointer).value;
    && c.messageId == pl.message.id && c.seqNo == pl.message.seqNo && c.pointer == pl.pointer
    && c.excerpt == Relevance.Excerpt(q.lex, text, q.terms, b.part) && Relevance.PieceOf(c.excerpt, text)
    && (|text| <= b.part ==> c.excerpt == text)
    && c.hash == (if pl.message.text.Some? then pl.message.text.value else "")
  }

  ghost predicate AllQuoted(q: Query, b: Bounds, ws: seq<Place>, cs: seq<Retrieval.Candidate>) {
    |cs| == |ws| && forall k :: 0 <= k < |ws| ==> QuoteOf(q, b, ws[k], cs[k])
  }

  ghost predicate InReadingOrder(ws: seq<Place>) {
    forall k, l :: 0 <= k < l < |ws| ==> Precedes(ws[k], ws[l])
  }

  /** The places are those of the selected leaves' fetched messages, each once, in order. */
  ghost predicate PlacesOf(t: Captured, selected: seq<Id>, ws: seq<Place>) {
    && InReadingOrder(ws)
    && forall pl :: pl in ws <==>
         pl.chunk < |selected| && IsFetched(t, selected[pl.chunk], pl.message) && Quotable(pl.message, pl.pointer)
  }

  /** The candidates quote every text of the selected leaves' fetched messages once, in order, and nothing else. */
  ghost predicate QuotesChunks(t: Captured, q: Query, b: Bounds, selected: seq<Id>, cs: seq<Retrieval.Candidate>) {
    exists ws :: PlacesOf(t, selected, ws) && AllQuoted(q, b, ws, cs)
  }

  ghost function MessagePlaces(j: nat, m: Message, parts: seq<Search.Part>): (r: seq<Place>)
    ensures |r| == |parts|
  {
    seq(|parts|, k requires 0 <= k < |parts| => Place(j, m, parts[k].pointer))
  }

  ghost function ManyPlaces(j: nat, ms: seq<Message>): seq<Place> {
    if ms == [] then []
    else ManyPlaces(j, ms[..|ms|-1]) + MessagePlaces(j, ms[|ms|-1], Parts(ms[|ms|-1].payload))
  }

  ghost function AllPlaces(t: Captured, selected: seq<Id>): seq<Place> {
    if selected == [] then []
    else
      AllPlaces(t, selected[..|selected|-1]) +
      ManyPlaces(|selected| - 1, Fetched(ChunkMessages(t, selected[|selected|-1])))
  }

  lemma QuotedConcat(q: Query, b: Bounds, ws: seq<Place>, cs: seq<Retrieval.Candidate>, vs: seq<Place>,
                     ds: seq<Retrieval.Candidate>)
    requires AllQuoted(q, b, ws, cs) && AllQuoted(q, b, vs, ds)
    ensures AllQuoted(q, b, ws + vs, cs + ds)
  {
    hide QuoteOf;
  }

  lemma PartQuoted(q: Query, b: Bounds, j: nat, m: Message, part: Search.Part)
    requires Quotable(m, part.pointer) && TextAt(m.payload, part.pointer) == Some(part.text)
    ensures QuoteOf(q, b, Place(j, m, part.pointer), PartCandidate(q, b, m, part))
  {
    Relevance.ExcerptIsPiece(q.lex, part.text, q.terms, b.part);
  }

  lemma {:induction false} MessageQuoted(q: Query, b: Bounds, j: nat, m: Message, parts: seq<Search.Part>)
    requires forall part :: part in parts ==>
               Quotable(m, part.pointer) && TextAt(m.payload, part.pointer) == Some(part.text)
    ensures AllQuoted(q, b, MessagePlaces(j, m, parts), MessageCandidates(q, b, m, parts))
  {
    hide QuoteOf, PartCandidate, Quotable;
    if parts != [] {
      var init, last := parts[..|parts|-1], parts[|parts|-1];
      MessageQuoted(q, b, j, m, init);
      PartQuoted(q, b, j, m, last);
      assert MessagePlaces(j, m, parts) == MessagePlaces(j, m, init) + [Place(j, m, last.pointer)];
      QuotedConcat(q, b, MessagePlaces(j, m, init), MessageCandidates(q, b, m, init), [Place(j, m, last.pointer)],
                   [PartCandidate(q, b, m, last)]);
    }
  }

  lemma {:induction false} ManyQuoted(q: Query, b: Bounds, j: nat, ms: seq<Message>)
    ensures AllQuoted(q, b, ManyPlaces(j, ms), ManyCandidates(q, b, ms))
  {
    hide AllQuoted, Parts, MessagePlaces, MessageCandidates;
    if ms == [] {
      NothingQuoted(q, b);
    } else {
      var init, last := ms[..|ms|-1], ms[|ms|-1];
      PartsExact(last);
      ManyQuoted(q, b, j, init);
      MessageQuoted(q, b, j, last, Parts(last.payload));
      QuotedConcat(q, b, ManyPlaces(j, init), ManyCandidates(q, b, init), MessagePlaces(j, last, Parts(last.payload)),
                   MessageCandidates(q, b, last, Parts(last.payload)));
    }
  }

  lemma NothingQuoted(q: Query, b: Bounds)
    ensures AllQuoted(q, b, [], [])
  {}

  lemma {:induction false} SelectedQuoted(t: Captured, q: Query, b: Bounds, selected: seq<Id>)
    ensures AllQuoted(q, b, AllPlaces(t, selected), CandidatesOf(t, q, b, selected))
  {
    hide AllQuoted, ManyPlaces, ManyCandidates, ChunkMessages, Fetched;
    if selected == [] {
      NothingQuoted(q, b);
    } else {
      var init, last := selected[..|selected|-1], selected[|selected|-1];
      var ms := Fetched(ChunkMessages(t, last));
      SelectedQuoted(t, q, b, init);
      ManyQuoted(q, b, |init|, ms);
      QuotedConcat(q, b, AllPlaces(t, init), CandidatesOf(t, q, b, init), ManyPlaces(|init|, ms),
                   ManyCandidates(q, b, ms));
    }
  }

  ghost predicate AscendingSeqs(ms: seq<Message>) {
    forall i, j :: 0 <= i < j < |ms| ==> ms[i].seqNo < ms[j].seqNo
  }

  lemma OrderedConcat(a: seq<Place>, b: seq<Place>)
    requires InReadingOrder(a) && InReadingOrder(b) && forall x, y :: x in a && y in b ==> Precedes(x, y)
    ensures InReadingOrder(a + b)
  {
    hide Precedes;
  }

  lemma MessagePlacesExact(j: nat, m: Message)
    ensures InReadingOrder(MessagePlaces(j, m, Parts(m.payload)))
    ensures forall pl :: pl in MessagePlaces(j, m, Parts(m.payload)) <==>
              pl.chunk == j && pl.message == m && Quotable(m, pl.pointer)
  {
    PartsExact(m);
    var parts := Parts(m.payload);
    hide Parts;
    var ws := MessagePlaces(j, m, parts);
    forall pl ensures pl in ws <==> pl.chunk == j && pl.message == m && Quotable(m, pl.pointer) {
      if pl in ws {
        var k :| 0 <= k < |ws| && ws[k] == pl;
        assert parts[k] in parts;
      }
      if pl.chunk == j && pl.message == m && Quotable(m, pl.pointer) {
        assert Search.Part(pl.pointer, TextAt(m.payload, pl.pointer).value) in parts;
        var k :| 0 <= k < |parts| && parts[k] == Search.Part(pl.pointer, TextAt(m.payload, pl.pointer).value);
        assert ws[k] == pl;
      }
    }
  }

  lemma {:induction false} ManyPlacesExact(j: nat, ms: seq<Message>)
    requires AscendingSeqs(ms)
    ensures InReadingOrder(ManyPlaces(j, ms))
    ensures forall pl :: pl in ManyPlaces(j, ms) <==>
              pl.chunk == j && pl.message in ms && Quotable(pl.message, pl.pointer)
  {
    hide InReadingOrder, Quotable, Parts, MessagePlaces;
    if ms == [] {
      NoPlaces();
    } else {
      var init, last := ms[..|ms|-1], ms[|ms|-1];
      assert ms == init + [last];
      ManyPlacesExact(j, init);
      MessagePlacesExact(j, last);
      forall x, y | x in ManyPlaces(j, init) && y in MessagePlaces(j, last, Parts(last.payload))
        ensures Precedes(x, y) {
        var k :| 0 <= k < |init| && init[k] == x.message;
        assert ms[k].seqNo < ms[|ms|-1].seqNo;
      }
      OrderedConcat(ManyPlaces(j, init), MessagePlaces(j, last, Parts(last.payload)));
    }
  }

  lemma NoPlaces()
    ensures InReadingOrder([])
  {}

  /** The chunk's messages are sorted, and the position of each counts the earlier ones. */
  lemma ChunkCounts(t: Captured, id: Id)
    requires StoreInvariants.ClashFree(t.messages)
    ensures AscendingSeqs(ChunkMessages(t, id))
    ensures forall m :: m in Fetched(ChunkMessages(t, id)) <==> IsFetched(t, id, m)
  {
    var ms := ChunkMessages(t, id);
    ChunkIsSpan(t, id);
    ChunkAscends(t, id);
    hide ChunkMessages, InSpan;
    forall k | 0 <= k < |ms| ensures |Earlier(t, id, ms[k])| == k { CountBefore(t, id, ms, k); }
    forall m ensures m in Fetched(ms) <==> IsFetched(t, id, m) {
      if m in Fetched(ms) {
        var k :| 0 <= k < |Fetched(ms)| && Fetched(ms)[k] == m;
        assert ms[k] == m && ms[k] in ms;
      }
      if IsFetched(t, id, m) {
        var k :| 0 <= k < |ms| && ms[k] == m;
        assert Fetched(ms)[k] == m;
      }
    }
  }

  lemma ChunkAscends(t: Captured, id: Id)
    requires StoreInvariants.ClashFree(t.messages)
    ensures AscendingSeqs(ChunkMessages(t, id))
  {
    if id in t.forest.nodes {
      var n := t.forest.nodes[id];
      PublishInvariants.PendingFacts(t.messages, n.lo, if n.hi <= t.maxSeq then n.hi else t.maxSeq);
    }
  }

  lemma CountBefore(t: Captured, id: Id, ms: seq<Message>, k: nat)
    requires AscendingSeqs(ms) && k < |ms| && forall m :: m in ms <==> InSpan(t, id, m)
    ensures |Earlier(t, id, ms[k])| == k
  {
    assert forall m :: InSpan(t, id, m) ==> m in t.messages;
    hide InSpan;
    forall m ensures m in Earlier(t, id, ms[k]) <==> m in ms[..k] {
      if m in Earlier(t, id, ms[k]) {
        var l :| 0 <= l < |ms| && ms[l] == m;
        assert l < k;
        assert ms[..k][l] == m;
      }
      if m in ms[..k] {
        var l :| 0 <= l < k && ms[l] == m;
        assert ms[l] in ms;
      }
    }
    assert Earlier(t, id, ms[k]) == Elements(ms[..k]);
    DistinctCount(ms[..k]);
  }

  lemma {:induction false} DistinctCount(ms: seq<Message>)
    requires AscendingSeqs(ms)
    ensures |Elements(ms)| == |ms|
  {
    if ms != [] {
      var init, last := ms[..|ms|-1], ms[|ms|-1];
      DistinctCount(init);
      assert last !in Elements(init);
      assert ms == init + [last];
      assert Elements(ms) == Elements(init) + {last};
    }
  }

  lemma {:induction false} AllPlacesExact(t: Captured, selected: seq<Id>)
    requires StoreInvariants.ClashFree(t.messages)
    ensures PlacesOf(t, selected, AllPlaces(t, selected))
  {
    hide InReadingOrder, Quotable, IsFetched, StoreInvariants.ClashFree, ChunkMessages, Fetched, ManyPlaces;
    if selected == [] {
      NoPlaces();
    } else {
      var init, last := selected[..|selected|-1], selected[|selected|-1];
      var ms := Fetched(ChunkMessages(t, last));
      AllPlacesExact(t, init);
      ChunkCounts(t, last);
      FetchedAscends(ChunkMessages(t, last));
      ManyPlacesExact(|init|, ms);
      OrderedConcat(AllPlaces(t, init), ManyPlaces(|init|, ms));
    }
  }

  lemma FetchedAscends(ms: seq<Message>)
    requires AscendingSeqs(ms)
    ensures AscendingSeqs(Fetched(ms))
  {}

  /** So the candidates quote the store. */
  lemma CandidatesAreQuotes(t: Captured, q: Query, b: Bounds, selected: seq<Id>)
    requires StoreInvariants.ClashFree(t.messages)
    ensures QuotesChunks(t, q, b, selected, CandidatesOf(t, q, b, selected))
  {
    hide *;
    AllPlacesExact(t, selected);
    SelectedQuoted(t, q, b, selected);
    QuotesWith(t, q, b, selected, AllPlaces(t, selected), CandidatesOf(t, q, b, selected));
  }

  lemma QuotesWith(t: Captured, q: Query, b: Bounds, selected: seq<Id>, ws: seq<Place>, cs: seq<Retrieval.Candidate>)
    requires PlacesOf(t, selected, ws) && AllQuoted(q, b, ws, cs)
    ensures QuotesChunks(t, q, b, selected, cs)
  {
    hide PlacesOf, AllQuoted;
  }

  // ---------------------------------------------------------------- the loops

  method PartLoop(q: Query, b: Bounds, m: Message) returns (found: seq<Retrieval.Candidate>, limited: bool)
    ensures found == MessageCandidates(q, b, m, Parts(m.payload))
    ensures !limited <==> WholeMessage(b, m)
  {
    var parts := Parts(m.payload);
    found, limited := [], false;
    WholeMessageIs(b, m);
    hide Relevance.Excerpt, Parts, WholeMessage;
    for i := 0 to |parts|
      invariant found == MessageCandidates(q, b, m, parts[..i])
      invariant !limited <==> forall part :: part in parts[..i] ==> |part.text| <= b.part
    {
      assert parts[..i+1][..i] == parts[..i] && parts[..i+1] == parts[..i] + [parts[i]];
      var excerpt := Relevance.Excerpt(q.lex, parts[i].text, q.terms, b.part);
      Relevance.ExcerptIsPiece(q.lex, parts[i].text, q.terms, b.part);
      limited := limited || |excerpt| < |parts[i].text|;
      found := found + [Retrieval.Candidate(m.id, m.seqNo, parts[i].pointer, excerpt, OrEmpty(m.text))];
    }
    assert parts[..|parts|] == parts;
  }

  method ChunkLoop(t: Captured, q: Query, b: Bounds, id: Id) returns (found: seq<Retrieval.Candidate>, limited: bool)
    ensures found == ManyCandidates(q, b, Fetched(ChunkMessages(t, id)))
    ensures !limited <==> WholeChunk(t, b, id)
  {
    var all := ChunkMessages(t, id);
    var messages := Fetched(all);
    found, limited := [], |messages| >= MAX_FETCHED;
    ChunkIsSpan(t, id);
    hide ChunkMessages, WholeMessage, Parts, InSpan;
    for i := 0 to |messages|
      invariant found == ManyCandidates(q, b, messages[..i])
      invariant !limited <==> |messages| < MAX_FETCHED && forall m :: m in messages[..i] ==> WholeMessage(b, m)
    {
      assert messages[..i+1][..i] == messages[..i] && messages[..i+1] == messages[..i] + [messages[i]];
      var more, cut := PartLoop(q, b, messages[i]);
      found, limited := found + more, limited || cut;
    }
    assert messages[..|messages|] == messages;
  }
}
