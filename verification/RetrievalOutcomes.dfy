/**
 * What a retrieval returns while other callers write, clear and publish: exactly the parts it was asked to cite,
 * as they were stored (packages/python/src/cci/retrieve.py).
 */
module RetrievalOutcomes {
  import opened Wrappers
  import opened Sequences
  import opened Records
  import opened Hierarchy
  import opened Transactions
  import opened StoreInvariants
  import opened PublishInvariants
  import opened Indexing
  import opened IndexRuns
  import Relevance
  import opened Retrieval
  import opened Protocol
  import opened ProtocolSafety
  import opened ProtocolOutcomes

  // ---------------------------------------------------------------- what is cited

  /** A candidate quotes, from this message, the part that was nominated. */
  ghost predicate QuotesPart(m: Message, view: View, k: CandidateKey, c: Candidate) {
    && m.id == k.messageId && TextAt(m.payload, k.pointer).Some?
    && c.messageId == m.id && c.seqNo == m.seqNo && c.pointer == k.pointer
    && c.excerpt == Relevance.Excerpt(view.lex, TextAt(m.payload, k.pointer).value, view.terms, view.window)
    && c.hash == if m.text.Some? then m.text.value else ""
  }

  ghost predicate Cites(messages: seq<Message>, view: View, k: CandidateKey, c: Candidate) {
    exists m :: m in messages && QuotesPart(m, view, k, c)
  }

  /** A citation within a span of sequence numbers. */
  ghost predicate CitesWithin(messages: seq<Message>, view: View, k: CandidateKey, lo: nat, hi: nat, c: Candidate) {
    Cites(messages, view, k, c) && lo <= c.seqNo <= hi
  }

  /** The parts that are stored within the span, in the order they were nominated. */
  ghost predicate AllCitedIn(messages: seq<Message>, view: View, keys: seq<CandidateKey>, lo: nat, hi: nat,
                             cs: seq<Candidate>) {
    exists at :: CitedAt(messages, view, keys, lo, hi, at, cs)
  }

  ghost predicate CitedAt(messages: seq<Message>, view: View, keys: seq<CandidateKey>, lo: nat, hi: nat, at: seq<nat>,
                          cs: seq<Candidate>) {
    CitablesAt(messages, view, keys, lo, hi, at) && EachCited(messages, view, keys, lo, hi, at, cs)
  }

  ghost predicate CitablesAt(messages: seq<Message>, view: View, keys: seq<CandidateKey>, lo: nat, hi: nat,
                             at: seq<nat>) {
    Rising(at) && forall i: nat :: i in at <==> IsCitable(messages, view, keys, lo, hi, i)
  }

  ghost predicate EachCited(messages: seq<Message>, view: View, keys: seq<CandidateKey>, lo: nat, hi: nat, at: seq<nat>,
                            cs: seq<Candidate>) {
    |cs| == |at| &&
    forall k :: 0 <= k < |at| ==> at[k] < |keys| && CitesWithin(messages, view, keys[at[k]], lo, hi, cs[k])
  }

  ghost predicate IsCitable(messages: seq<Message>, view: View, keys: seq<CandidateKey>, lo: nat, hi: nat, i: nat) {
    i < |keys| && exists c :: CitesWithin(messages, view, keys[i], lo, hi, c)
  }

  lemma IdsAreUnique(db: Db)
    requires RowsOk(db)
    ensures NoDup(MessageIds(db.messages))
  {
    hide SeqsWithin, OneHistory, SearchIndex.InStep;
    var ids := MessageIds(db.messages);
    forall i, j | 0 <= i < j < |ids| ensures ids[i] != ids[j] {
      assert !Clashes(db.messages[i], db.messages[j]);
    }
  }

  /** The excerpt of a part is the one citation of it. */
  lemma CiteIs(messages: seq<Message>, view: View, k: CandidateKey, c: Candidate)
    requires NoDup(MessageIds(messages))
    ensures Cites(messages, view, k, c) <==> Cite(messages, view, k) == Some(c)
  {
    Records.FindFacts(messages, k.messageId);
    hide Relevance.Excerpt, TextAt;
    if Cites(messages, view, k, c) {
      var m :| m in messages && QuotesPart(m, view, k, c);
      FindUnique(messages, m);
    }
    if Cite(messages, view, k) == Some(c) {
      assert QuotesPart(Records.Find(messages, k.messageId).value, view, k, c);
    }
  }

  /** What one nominated part adds. */
  function CiteIn(messages: seq<Message>, view: View, k: CandidateKey, lo: nat, hi: nat): seq<Candidate> {
    var c := Cite(messages, view, k);
    if c.Some? && lo <= c.value.seqNo <= hi then [c.value] else []
  }

  lemma InSpanMore(messages: seq<Message>, view: View, keys: seq<CandidateKey>, lo: nat, hi: nat)
    requires keys != []
    ensures InSpan(CiteAll(messages, view, keys), lo, hi) ==
            InSpan(CiteAll(messages, view, keys[..|keys|-1]), lo, hi) +
            CiteIn(messages, view, keys[|keys|-1], lo, hi)
  {
    hide Cite;
    var c, before := Cite(messages, view, keys[|keys|-1]), CiteAll(messages, view, keys[..|keys|-1]);
    if c.Some? { assert (before + [c.value])[..|before|] == before; } else { assert before + [] == before; }
  }

  lemma CitableMore(messages: seq<Message>, view: View, keys: seq<CandidateKey>, lo: nat, hi: nat,
                    before: seq<CandidateKey>)
    requires NoDup(MessageIds(messages)) && keys != [] && before == keys[..|keys|-1]
    ensures forall i: nat :: IsCitable(messages, view, before, lo, hi, i) <==>
                             i < |before| && IsCitable(messages, view, keys, lo, hi, i)
    ensures forall i: nat :: IsCitable(messages, view, keys, lo, hi, i) ==> i <= |before|
    ensures IsCitable(messages, view, keys, lo, hi, |before|) <==>
            CiteIn(messages, view, keys[|before|], lo, hi) != []
    ensures forall c :: c in CiteIn(messages, view, keys[|before|], lo, hi) ==>
                        CitesWithin(messages, view, keys[|before|], lo, hi, c)
  {
    hide Cite, Cites;
    var k := keys[|before|];
    forall c ensures Cites(messages, view, k, c) <==> Cite(messages, view, k) == Some(c) {
      CiteIs(messages, view, k, c);
    }
    if CiteIn(messages, view, k, lo, hi) != [] {
      assert CitesWithin(messages, view, k, lo, hi, CiteIn(messages, view, k, lo, hi)[0]);
    }
  }

  lemma {:induction false} SpanCites(messages: seq<Message>, view: View, keys: seq<CandidateKey>, lo: nat, hi: nat)
    returns (at: seq<nat>)
    requires NoDup(MessageIds(messages))
    ensures CitedAt(messages, view, keys, lo, hi, at, InSpan(CiteAll(messages, view, keys), lo, hi))
  {
    hide *;
    if keys == [] {
      at := [];
      NothingCited(messages, view, lo, hi);
    } else {
      var n := |keys| - 1;
      at := SpanCites(messages, view, keys[..n], lo, hi);
      InSpanMore(messages, view, keys, lo, hi);
      CitableMore(messages, view, keys, lo, hi, keys[..n]);
      at := CitedMoreAt(messages, view, keys, lo, hi, at, InSpan(CiteAll(messages, view, keys[..n]), lo, hi));
    }
  }

  lemma NothingCited(messages: seq<Message>, view: View, lo: nat, hi: nat)
    ensures CitedAt(messages, view, [], lo, hi, [], InSpan(CiteAll(messages, view, []), lo, hi))
  {}

  lemma CitedMoreAt(messages: seq<Message>, view: View, keys: seq<CandidateKey>, lo: nat, hi: nat, at: seq<nat>,
                    cs: seq<Candidate>) returns (at2: seq<nat>)
    requires NoDup(MessageIds(messages)) && keys != [] && CitedAt(messages, view, keys[..|keys|-1], lo, hi, at, cs)
    ensures CitedAt(messages, view, keys, lo, hi, at2, cs + CiteIn(messages, view, keys[|keys|-1], lo, hi))
  {
    var n := |keys| - 1;
    assert CitedAt(messages, view, keys[..n], lo, hi, at, cs);
    hide *;
    CitedParts(messages, view, keys[..n], lo, hi, at, cs);
    CitableMore(messages, view, keys, lo, hi, keys[..n]);
    CitablesMore(messages, view, keys, lo, hi, at);
    EachMore(messages, view, keys, lo, hi, at, cs);
    OneAtMost(messages, view, keys[n], lo, hi);
    var more := CiteIn(messages, view, keys[n], lo, hi);
    if more == [] {
      at2 := at;
      assert cs + more == cs;
    } else {
      at2 := at + [n];
      assert more == [more[0]] && CitesWithin(messages, view, keys[n], lo, hi, more[0]);
    }
    CitedWhole(messages, view, keys, lo, hi, at2, cs + more);
  }

  lemma CitedParts(messages: seq<Message>, view: View, keys: seq<CandidateKey>, lo: nat, hi: nat, at: seq<nat>,
                   cs: seq<Candidate>)
    requires CitedAt(messages, view, keys, lo, hi, at, cs)
    ensures CitablesAt(messages, view, keys, lo, hi, at) && EachCited(messages, view, keys, lo, hi, at, cs)
  {
    hide CitablesAt, EachCited;
  }

  lemma CitedWhole(messages: seq<Message>, view: View, keys: seq<CandidateKey>, lo: nat, hi: nat, at: seq<nat>,
                   cs: seq<Candidate>)
    requires CitablesAt(messages, view, keys, lo, hi, at) && EachCited(messages, view, keys, lo, hi, at, cs)
    ensures CitedAt(messages, view, keys, lo, hi, at, cs)
  {
    hide CitablesAt, EachCited;
  }

  lemma CitablesMore(messages: seq<Message>, view: View, keys: seq<CandidateKey>, lo: nat, hi: nat, at: seq<nat>)
    requires NoDup(MessageIds(messages)) && keys != [] && CitablesAt(messages, view, keys[..|keys|-1], lo, hi, at)
    ensures var n := |keys| - 1;
            CitablesAt(messages, view, keys, lo, hi, if IsCitable(messages, view, keys, lo, hi, n) then at + [n]
                       else at)
  {
    var n := |keys| - 1;
    CitableMore(messages, view, keys, lo, hi, keys[..n]);
    hide CitesWithin, IsCitable, CiteIn;
    forall i | i in at ensures i < n { assert IsCitable(messages, view, keys[..n], lo, hi, i); }
    RisingMore(at, n);
  }

  lemma EachMore(messages: seq<Message>, view: View, keys: seq<CandidateKey>, lo: nat, hi: nat, at: seq<nat>,
                 cs: seq<Candidate>)
    requires keys != [] && EachCited(messages, view, keys[..|keys|-1], lo, hi, at, cs)
    ensures EachCited(messages, view, keys, lo, hi, at, cs)
    ensures forall c :: CitesWithin(messages, view, keys[|keys|-1], lo, hi, c) ==>
                        EachCited(messages, view, keys, lo, hi, at + [|keys|-1], cs + [c])
  {
    hide CitesWithin;
    forall c | CitesWithin(messages, view, keys[|keys|-1], lo, hi, c)
      ensures EachCited(messages, view, keys, lo, hi, at + [|keys|-1], cs + [c])
    {
      var at2, cs2 := at + [|keys|-1], cs + [c];
      forall k | 0 <= k < |at2|
        ensures at2[k] < |keys| && CitesWithin(messages, view, keys[at2[k]], lo, hi, cs2[k])
      {}
    }
  }

  lemma OneAtMost(messages: seq<Message>, view: View, k: CandidateKey, lo: nat, hi: nat)
    ensures |CiteIn(messages, view, k, lo, hi)| <= 1
  {}

  // ---------------------------------------------------------------- linked pairs

  /** Both ends of a pair are cited, the later mention within the bound. */
  ghost predicate PairCites(messages: seq<Message>, view: View, p: (CandidateKey, CandidateKey), upto: nat, l: Link) {
    && Cites(messages, view, p.0, l.source) && Cites(messages, view, p.1, l.linked)
    && l.source.seqNo < l.linked.seqNo <= upto
  }

  /** The pairs that are stored, in the order they were nominated. */
  ghost predicate AllLinked(messages: seq<Message>, view: View, pairs: seq<(CandidateKey, CandidateKey)>, upto: nat,
                            links: seq<Link>) {
    exists at :: LinkedAt(messages, view, pairs, upto, at, links)
  }

  ghost predicate LinkedAt(messages: seq<Message>, view: View, pairs: seq<(CandidateKey, CandidateKey)>, upto: nat,
                           at: seq<nat>, links: seq<Link>) {
    LinkablesAt(messages, view, pairs, upto, at) && EachLinked(messages, view, pairs, upto, at, links)
  }

  ghost predicate LinkablesAt(messages: seq<Message>, view: View, pairs: seq<(CandidateKey, CandidateKey)>, upto: nat,
                              at: seq<nat>) {
    Rising(at) && forall i: nat :: i in at <==> IsLinkable(messages, view, pairs, upto, i)
  }

  ghost predicate EachLinked(messages: seq<Message>, view: View, pairs: seq<(CandidateKey, CandidateKey)>, upto: nat,
                             at: seq<nat>, links: seq<Link>) {
    |links| == |at| &&
    forall k :: 0 <= k < |at| ==> at[k] < |pairs| && PairCites(messages, view, pairs[at[k]], upto, links[k])
  }

  ghost predicate IsLinkable(messages: seq<Message>, view: View, pairs: seq<(CandidateKey, CandidateKey)>, upto: nat,
                             i: nat) {
    i < |pairs| && exists l :: PairCites(messages, view, pairs[i], upto, l)
  }

  function PairIn(messages: seq<Message>, view: View, p: (CandidateKey, CandidateKey), upto: nat): seq<Link> {
    var a, b := Cite(messages, view, p.0), Cite(messages, view, p.1);
    if a.Some? && b.Some? && a.value.seqNo < b.value.seqNo <= upto then [Link(a.value, b.value)] else []
  }

  lemma PairIs(messages: seq<Message>, view: View, p: (CandidateKey, CandidateKey), upto: nat, l: Link)
    requires NoDup(MessageIds(messages))
    ensures PairCites(messages, view, p, upto, l) <==> PairIn(messages, view, p, upto) == [l]
  {
    hide Cite, Cites;
    CiteIs(messages, view, p.0, l.source);
    CiteIs(messages, view, p.1, l.linked);
  }

  lemma LinkableMore(messages: seq<Message>, view: View, pairs: seq<(CandidateKey, CandidateKey)>, upto: nat,
                     before: seq<(CandidateKey, CandidateKey)>)
    requires NoDup(MessageIds(messages)) && pairs != [] && before == pairs[..|pairs|-1]
    ensures forall i: nat :: IsLinkable(messages, view, before, upto, i) <==>
                             i < |before| && IsLinkable(messages, view, pairs, upto, i)
    ensures forall i: nat :: IsLinkable(messages, view, pairs, upto, i) ==> i <= |before|
    ensures IsLinkable(messages, view, pairs, upto, |before|) <==>
            PairIn(messages, view, pairs[|before|], upto) != []
    ensures forall l :: l in PairIn(messages, view, pairs[|before|], upto) ==>
                        PairCites(messages, view, pairs[|before|], upto, l)
    ensures |PairIn(messages, view, pairs[|before|], upto)| <= 1
  {
    hide Cite, PairCites;
    var p := pairs[|before|];
    forall l ensures PairCites(messages, view, p, upto, l) <==> PairIn(messages, view, p, upto) == [l] {
      PairIs(messages, view, p, upto, l);
    }
    if PairIn(messages, view, p, upto) != [] {
      assert PairCites(messages, view, p, upto, PairIn(messages, view, p, upto)[0]);
    }
  }

  lemma {:induction false} PairsLink(messages: seq<Message>, view: View, pairs: seq<(CandidateKey, CandidateKey)>,
                                     upto: nat) returns (at: seq<nat>)
    requires NoDup(MessageIds(messages))
    ensures LinkablesAt(messages, view, pairs, upto, at)
    ensures EachLinked(messages, view, pairs, upto, at, CitePairs(messages, view, pairs, upto))
  {
    if pairs == [] {
      at := [];
    } else {
      var n := |pairs| - 1;
      hide *;
      assert pairs[..n] == pairs[..|pairs|-1];
      at := PairsLink(messages, view, pairs[..n], upto);
      LinkableMore(messages, view, pairs, upto, pairs[..n]);
      LinkablesMore(messages, view, pairs, upto, at);
      EachLinkedMore(messages, view, pairs, upto, at, CitePairs(messages, view, pairs[..n], upto));
      CitePairsMore(messages, view, pairs, upto);
      var more := PairIn(messages, view, pairs[n], upto);
      if more != [] {
        at := at + [n];
        assert PairCites(messages, view, pairs[n], upto, more[0]);
      }
    }
  }

  lemma LinkablesMore(messages: seq<Message>, view: View, pairs: seq<(CandidateKey, CandidateKey)>, upto: nat,
                      at: seq<nat>)
    requires NoDup(MessageIds(messages)) && pairs != [] && LinkablesAt(messages, view, pairs[..|pairs|-1], upto, at)
    ensures var n := |pairs| - 1;
            LinkablesAt(messages, view, pairs, upto, if IsLinkable(messages, view, pairs, upto, n) then at + [n]
                        else at)
  {
    var n := |pairs| - 1;
    LinkableMore(messages, view, pairs, upto, pairs[..n]);
    hide PairCites, IsLinkable, PairIn;
    forall i | i in at ensures i < n { assert IsLinkable(messages, view, pairs[..n], upto, i); }
    RisingMore(at, n);
  }

  lemma CitePairsMore(messages: seq<Message>, view: View, pairs: seq<(CandidateKey, CandidateKey)>, upto: nat)
    requires pairs != []
    ensures var n := |pairs| - 1; var more := PairIn(messages, view, pairs[n], upto);
            && (more == [] || more == [more[0]])
            && CitePairs(messages, view, pairs, upto) == CitePairs(messages, view, pairs[..n], upto) + more
            && (more == [] ==> CitePairs(messages, view, pairs, upto) == CitePairs(messages, view, pairs[..n], upto))
  {
    hide Cite;
  }

  lemma EachLinkedMore(messages: seq<Message>, view: View, pairs: seq<(CandidateKey, CandidateKey)>, upto: nat,
                       at: seq<nat>, links: seq<Link>)
    requires pairs != [] && EachLinked(messages, view, pairs[..|pairs|-1], upto, at, links)
    ensures EachLinked(messages, view, pairs, upto, at, links)
    ensures forall l :: PairCites(messages, view, pairs[|pairs|-1], upto, l) ==>
                        EachLinked(messages, view, pairs, upto, at + [|pairs|-1], links + [l])
  {
    hide PairCites;
    forall l | PairCites(messages, view, pairs[|pairs|-1], upto, l)
      ensures EachLinked(messages, view, pairs, upto, at + [|pairs|-1], links + [l])
    {
      var at2, links2 := at + [|pairs|-1], links + [l];
      forall k | 0 <= k < |at2|
        ensures at2[k] < |pairs| && PairCites(messages, view, pairs[at2[k]], upto, links2[k])
      {}
    }
  }

  // ---------------------------------------------------------------- the steps of one retrieval

  lemma {:induction false} InSpanOfAll(cs: seq<Candidate>, hi: nat)
    requires forall c :: c in cs ==> c.seqNo <= hi
    ensures InSpan(cs, 0, hi) == cs
  {
    if cs != [] {
      InSpanOfAll(cs[..|cs|-1], hi);
      assert cs == cs[..|cs|-1] + [cs[|cs|-1]];
    }
  }

  /** A retrieval starts from the citations of what search nominated, taken from one state of the store. */
  lemma OpeningCites(db: Db, view: View, hits: seq<CandidateKey>, pairs: seq<(CandidateKey, CandidateKey)>)
    requires RowsOk(db)
    ensures var r := OpenedReader(db, view, hits, pairs);
            && AllCitedIn(db.messages, view, hits, 0, db.highWater, r.hits)
            && AllLinked(db.messages, view, pairs, db.highWater, r.pairs)
            && r.tree == [] && r.chunks == [] && r.snapshot == SnapshotOf(db)
  {
    IdsAreUnique(db);
    var at := SpanCites(db.messages, view, hits, 0, db.highWater);
    var at2 := PairsLink(db.messages, view, pairs, db.highWater);
    CiteAllCited(db.messages, view, hits, db.highWater);
    hide CiteAll, InSpan, CitePairs, CitedAt, LinkablesAt, EachLinked, RowsOk;
    forall c | c in CiteAll(db.messages, view, hits) ensures c.seqNo <= db.highWater {
      assert Cited(db.messages, db.highWater, c);
    }
    InSpanOfAll(CiteAll(db.messages, view, hits), db.highWater);
    assert LinkedAt(db.messages, view, pairs, db.highWater, at2, CitePairs(db.messages, view, pairs, db.highWater));
  }

  function Least(a: nat, b: nat): nat {
    if a <= b then a else b
  }

  /**
   * A visit to a leaf adds the citations of its nominated parts within the leaf's span and the snapshot's bound,
   * in their order; once the tree or the generation has changed everything gathered is dropped.
   */
  lemma VisitAppends(db: Db, r: Reader, view: View, leaf: nat, parts: seq<CandidateKey>)
    requires RowsOk(db)
    ensures var r2 := VisitedReader(db, r, view, leaf, parts);
            && r2.snapshot == r.snapshot && r2.hits == r.hits && r2.pairs == r.pairs
            && if db.indexRevision != r.snapshot.indexRevision || db.generation != r.snapshot.generation then
                 r2.tree == [] && r2.chunks == []
               else if leaf >= |db.forest.leaves| then
                 r2 == r
               else
                 && r.tree <= r2.tree && r2.chunks == r.chunks + [db.forest.leaves[leaf].id]
                 && AllCitedIn(db.messages, view, parts, db.forest.leaves[leaf].lo,
                               Least(db.forest.leaves[leaf].hi, r.snapshot.maxSeq), r2.tree[|r.tree|..])
  {
    IdsAreUnique(db);
    if leaf < |db.forest.leaves| {
      var n := db.forest.leaves[leaf];
      var hi := Least(n.hi, r.snapshot.maxSeq);
      var at := SpanCites(db.messages, view, parts, n.lo, hi);
      hide CiteAll, InSpan, CitedAt, RowsOk;
      var more := InSpan(CiteAll(db.messages, view, parts), n.lo, hi);
      assert (r.tree + more)[|r.tree|..] == more;
      assert AllCitedIn(db.messages, view, parts, n.lo, hi, more);
    }
  }

  /** Every citation of a nominated part within the span is among them, and nothing else. */
  lemma CitedMembers(messages: seq<Message>, view: View, keys: seq<CandidateKey>, lo: nat, hi: nat, cs: seq<Candidate>,
                     c: Candidate)
    requires NoDup(MessageIds(messages)) && AllCitedIn(messages, view, keys, lo, hi, cs)
    ensures c in cs <==> exists k :: k in keys && CitesWithin(messages, view, k, lo, hi, c)
  {
    var at :| CitedAt(messages, view, keys, lo, hi, at, cs);
    assert CitablesAt(messages, view, keys, lo, hi, at) && EachCited(messages, view, keys, lo, hi, at, cs);
    hide Cites, Cite;
    if k :| k in keys && CitesWithin(messages, view, k, lo, hi, c) {
      var i :| 0 <= i < |keys| && keys[i] == k;
      assert IsCitable(messages, view, keys, lo, hi, i);
      var l :| 0 <= l < |at| && at[l] == i;
      assert CitesWithin(messages, view, keys[at[l]], lo, hi, cs[l]);
      CiteIs(messages, view, k, c);
      CiteIs(messages, view, k, cs[l]);
    }
    if c in cs {
      var l :| 0 <= l < |cs| && cs[l] == c;
      assert CitesWithin(messages, view, keys[at[l]], lo, hi, cs[l]);
    }
  }

  /** A visit to a leaf of the tree adds this candidate: a stored part within the leaf's span and the bound. */
  ghost predicate Gathers(s: State, e: Event, op: nat, upto: nat, c: Candidate) {
    && e.VisitsTree? && e.op == op && e.leaf < |s.db.forest.leaves|
    && exists k :: k in e.parts && CitesWithin(s.db.messages, e.view, k, s.db.forest.leaves[e.leaf].lo,
                                               Least(s.db.forest.leaves[e.leaf].hi, upto), c)
  }

  lemma VisitGathers(s: State, e: Event, op: nat, c: Candidate)
    requires RowsOk(s.db) && e.VisitsTree? && e.op == op && op in s.readers
    requires s.db.indexRevision == s.readers[op].snapshot.indexRevision
    requires s.db.generation == s.readers[op].snapshot.generation
    ensures var r := s.readers[op];
            c in VisitedReader(s.db, r, e.view, e.leaf, e.parts).tree <==>
            c in r.tree || Gathers(s, e, op, r.snapshot.maxSeq, c)
  {
    var r := s.readers[op];
    var r2 := VisitedReader(s.db, r, e.view, e.leaf, e.parts);
    VisitAppends(s.db, r, e.view, e.leaf, e.parts);
    IdsAreUnique(s.db);
    hide VisitedReader, AllCitedIn, CitesWithin, RowsOk;
    if e.leaf < |s.db.forest.leaves| {
      var n := s.db.forest.leaves[e.leaf];
      CitedMembers(s.db.messages, e.view, e.parts, n.lo, Least(n.hi, r.snapshot.maxSeq), r2.tree[|r.tree|..], c);
      assert r2.tree == r.tree + r2.tree[|r.tree|..];
    }
  }

  // ---------------------------------------------------------------- one retrieval in a run

  /** Between `i` and `j` no other retrieval begins under this operation. */
  ghost predicate SameRetrieval(events: seq<Event>, i: nat, j: nat, op: nat)
    requires j <= |events|
  {
    forall k :: i < k < j ==> !(events[k].OpensRetrieval? && events[k].op == op)
  }

  lemma EarlierRetrieval(events: seq<Event>, i: nat, j: nat, op: nat)
    requires i + 1 < j <= |events| && SameRetrieval(events, i, j, op)
    ensures SameRetrieval(events, i, j - 1, op) && !(events[j-1].OpensRetrieval? && events[j-1].op == op)
  {}

  /** A visit before `j` added this candidate. */
  ghost predicate Gathered(run: seq<State>, events: seq<Event>, i: nat, j: nat, op: nat, upto: nat, c: Candidate)
    requires j <= |events| && |run| == |events| + 1
  {
    exists k :: i < k < j && Gathers(run[k], events[k], op, upto, c)
  }

  /** What a retrieval holds: what it was opened with, and while the tree lasts all that its visits added. */
  ghost predicate Holds(run: seq<State>, events: seq<Event>, i: nat, j: nat, r: Reader)
    requires i < j <= |events| && |run| == |events| + 1 && events[i].OpensRetrieval?
  {
    && SameStart(OpenedReader(run[i].db, events[i].view, events[i].hits, events[i].pairs), r)
    && (r.chunks == [] ==> r.tree == [])
    && (TreeLasts(run, events, i, j) ==>
          forall c :: c in r.tree <==> Gathered(run, events, i, j, events[i].op, r.snapshot.maxSeq, c))
  }

  ghost predicate SameStart(start: Reader, r: Reader) {
    r.snapshot == start.snapshot && r.hits == start.hits && r.pairs == start.pairs
  }

  lemma NextKeepsReader(s: State, e: Event, cfg: Settings, op: nat)
    requires e.Ingests? ==> |e.batch.messages| == |e.batch.stamps|
    requires op in s.readers && !(e.OpensRetrieval? && e.op == op) && !(e.VisitsTree? && e.op == op)
    ensures op in Next(s, e, cfg).readers && Next(s, e, cfg).readers[op] == s.readers[op]
  {
    hide Ingest, Import, ImportBatch, Publish, Clear, IndexRead, CiteAll, CitePairs, InSpan, Chunks, FirstBatch,
         Arrived, Hi, Remaining;
  }

  lemma GatheredMore(run: seq<State>, events: seq<Event>, i: nat, j: nat, op: nat, upto: nat)
    requires i + 1 < j <= |events| && |run| == |events| + 1
    ensures forall c :: Gathered(run, events, i, j, op, upto, c) <==>
                        Gathered(run, events, i, j - 1, op, upto, c) || Gathers(run[j-1], events[j-1], op, upto, c)
  {
    hide Gathers;
  }

  lemma HoldsOpened(run: seq<State>, events: seq<Event>, cfg: Settings, i: nat)
    requires i < |events| && |run| == |events| + 1 && events[i].OpensRetrieval?
    requires RowsOk(run[i].db) && run[i+1] == Next(run[i], events[i], cfg)
    ensures events[i].op in run[i+1].readers && Holds(run, events, i, i + 1, run[i+1].readers[events[i].op])
  {
    var e := events[i];
    OpeningCites(run[i].db, e.view, e.hits, e.pairs);
    OpenRetrievalNext(run[i], e, cfg);
    hide Next, OpenedReader, AllCitedIn, AllLinked, Gathers, RowsOk, TreeLasts;
  }

  lemma HoldsStays(run: seq<State>, events: seq<Event>, i: nat, j: nat, r: Reader)
    requires i + 1 < j <= |events| && |run| == |events| + 1 && events[i].OpensRetrieval?
    requires Holds(run, events, i, j - 1, r) && !(events[j-1].VisitsTree? && events[j-1].op == events[i].op)
    ensures Holds(run, events, i, j, r)
  {
    LongerStretch(run, events, i, j);
    GatheredMore(run, events, i, j, events[i].op, r.snapshot.maxSeq);
    hide OpenedReader, TreeLasts, Gathered, Quiet, NoClear;
    OthersGatherNothing(run[j-1], events[j-1], events[i].op, r.snapshot.maxSeq);
  }

  lemma OthersGatherNothing(s: State, e: Event, op: nat, upto: nat)
    requires !(e.VisitsTree? && e.op == op)
    ensures forall c :: !Gathers(s, e, op, upto, c)
  {}

  lemma HoldsVisited(run: seq<State>, events: seq<Event>, cfg: Settings, i: nat, j: nat)
    requires Run(run, events, cfg) && i + 1 < j <= |events| && |run| == |events| + 1 && events[i].OpensRetrieval?
    requires events[j-1].VisitsTree? && events[j-1].op == events[i].op && events[i].op in run[j-1].readers
    requires RowsOk(run[j-1].db) && Holds(run, events, i, j - 1, run[j-1].readers[events[i].op])
    ensures var e := events[j-1];
            Holds(run, events, i, j,
                  VisitedReader(run[j-1].db, run[j-1].readers[events[i].op], e.view, e.leaf, e.parts))
  {
    var e, op := events[j-1], events[i].op;
    var r := run[j-1].readers[op];
    var r2 := VisitedReader(run[j-1].db, r, e.view, e.leaf, e.parts);
    LongerStretch(run, events, i, j);
    RevisionsTell(run, events, cfg, i, j - 1);
    TreeLastsNoClear(run, events, i, j);
    SnapshotSays(run[i].db, events[i].view, events[i].hits, events[i].pairs);
    GatheredMore(run, events, i, j, op, r.snapshot.maxSeq);
    VisitAppends(run[j-1].db, r, e.view, e.leaf, e.parts);
    HoldsParts(run, events, i, j - 1, r);
    hide *;
    if TreeLasts(run, events, i, j) {
      LongerStretch(run, events, i, j);
      forall c ensures c in r2.tree <==> Gathered(run, events, i, j, op, r2.snapshot.maxSeq, c) {
        VisitGathers(run[j-1], e, op, c);
      }
    }
    HoldsWhole(run, events, i, j, r2);
  }

  lemma SnapshotSays(db: Db, view: View, hits: seq<CandidateKey>, pairs: seq<(CandidateKey, CandidateKey)>)
    ensures var s := OpenedReader(db, view, hits, pairs).snapshot;
            && s.generation == db.generation && s.indexRevision == db.indexRevision && s.maxSeq == db.highWater
            && s.historyRevision == db.historyRevision
  {}

  lemma HoldsParts(run: seq<State>, events: seq<Event>, i: nat, j: nat, r: Reader)
    requires i < j <= |events| && |run| == |events| + 1 && events[i].OpensRetrieval? && Holds(run, events, i, j, r)
    ensures SameStart(OpenedReader(run[i].db, events[i].view, events[i].hits, events[i].pairs), r)
    ensures r.chunks == [] ==> r.tree == []
    ensures TreeLasts(run, events, i, j) ==>
              forall c :: c in r.tree <==> Gathered(run, events, i, j, events[i].op, r.snapshot.maxSeq, c)
  {
    hide OpenedReader, TreeLasts, Gathered, SameStart;
  }

  lemma HoldsWhole(run: seq<State>, events: seq<Event>, i: nat, j: nat, r: Reader)
    requires i < j <= |events| && |run| == |events| + 1 && events[i].OpensRetrieval?
    requires SameStart(OpenedReader(run[i].db, events[i].view, events[i].hits, events[i].pairs), r)
    requires r.chunks == [] ==> r.tree == []
    requires TreeLasts(run, events, i, j) ==>
               forall c :: c in r.tree <==> Gathered(run, events, i, j, events[i].op, r.snapshot.maxSeq, c)
    ensures Holds(run, events, i, j, r)
  {
    hide OpenedReader, TreeLasts, Gathered, SameStart;
  }

  lemma HoldsNext(run: seq<State>, events: seq<Event>, cfg: Settings, i: nat, j: nat)
    requires Run(run, events, cfg) && i + 1 < j <= |events| && |run| == |events| + 1 && events[i].OpensRetrieval?
    requires !(events[j-1].OpensRetrieval? && events[j-1].op == events[i].op) && RowsOk(run[j-1].db)
    requires events[i].op in run[j-1].readers && Holds(run, events, i, j - 1, run[j-1].readers[events[i].op])
    ensures events[i].op in run[j].readers && Holds(run, events, i, j, run[j].readers[events[i].op])
  {
    var op, e, s := events[i].op, events[j-1], run[j-1];
    hide *;
    NextReader(run, events, cfg, j - 1, op);
    if e.VisitsTree? && e.op == op {
      HoldsVisited(run, events, cfg, i, j);
    } else {
      HoldsStays(run, events, i, j, s.readers[op]);
    }
  }

  /** What a step leaves of a retrieval that goes on. */
  lemma NextReader(run: seq<State>, events: seq<Event>, cfg: Settings, k: nat, op: nat)
    requires Run(run, events, cfg) && k < |events| && |run| == |events| + 1 && op in run[k].readers
    requires !(events[k].OpensRetrieval? && events[k].op == op)
    ensures op in run[k+1].readers
    ensures var e, r := events[k], run[k].readers[op];
            run[k+1].readers[op] ==
              if e.VisitsTree? && e.op == op then VisitedReader(run[k].db, r, e.view, e.leaf, e.parts) else r
  {
    hide *;
    StepOf(run, events, cfg, k);
    if events[k].VisitsTree? && events[k].op == op {
      VisitTreeNext(run[k], events[k], cfg);
    } else {
      StampsEnabled(run[k], events[k], cfg);
      NextKeepsReader(run[k], events[k], cfg, op);
    }
  }

  lemma {:induction false} ReaderHolds(run: seq<State>, events: seq<Event>, cfg: Settings, i: nat, j: nat)
    requires Run(run, events, cfg) && i < j <= |events| && |run| == |events| + 1 && events[i].OpensRetrieval?
    requires SameRetrieval(events, i, j, events[i].op)
    ensures events[i].op in run[j].readers && Holds(run, events, i, j, run[j].readers[events[i].op])
  {
    hide *;
    RowsAt(run, events, cfg, j - 1);
    if j == i + 1 {
      StepOf(run, events, cfg, i);
      HoldsOpened(run, events, cfg, i);
    } else {
      EarlierRetrieval(events, i, j, events[i].op);
      ReaderHolds(run, events, cfg, i, j - 1);
      HoldsNext(run, events, cfg, i, j);
    }
  }

  lemma RowsAt(run: seq<State>, events: seq<Event>, cfg: Settings, i: nat)
    requires Run(run, events, cfg) && i < |run|
    ensures RowsOk(run[i].db)
  {
    hide *;
    RunKeepsInv(run, events, cfg, i);
    InvParts(run[i], cfg);
    DbParts(run[i].db, cfg.m);
  }

  /**
   * In every run a retrieval is refused exactly when the history was cleared since it was opened.  Otherwise its
   * evidence is assembled from the citations of what search nominated, as stored when it was opened, and of
   * exactly what its visits to the tree gathered, or of nothing from the tree once a publication replaced it.
   */
  lemma RetrievalServed(run: seq<State>, events: seq<Event>, cfg: Settings, i: nat, j: nat, limit: nat, most: nat)
    returns (r: Reader, tree: seq<Candidate>)
    requires Run(run, events, cfg) && i < j <= |events| && |run| == |events| + 1 && events[i].OpensRetrieval?
    requires SameRetrieval(events, i, j, events[i].op)
    ensures events[i].op in run[j].readers && r == run[j].readers[events[i].op]
    ensures var e, db := events[i], run[i].db;
            && AllCitedIn(db.messages, e.view, e.hits, 0, db.highWater, r.hits)
            && AllLinked(db.messages, e.view, e.pairs, db.highWater, r.pairs)
    ensures Emission(run[j].db, r, limit, most) ==
            if NoClear(events, i, j) then Ok(Assembled(r.hits, r.pairs, tree, limit, most)) else Err(VersionConflict)
    ensures forall c :: c in tree <==>
              TreeLasts(run, events, i, j) && Gathered(run, events, i, j, events[i].op, run[i].db.highWater, c)
  {
    var e, db := events[i], run[i].db;
    hide *;
    RowsAt(run, events, cfg, i);
    ReaderHolds(run, events, cfg, i, j);
    r := run[j].readers[e.op];
    HoldsParts(run, events, i, j, r);
    SnapshotSays(db, e.view, e.hits, e.pairs);
    OpeningCites(db, e.view, e.hits, e.pairs);
    RevisionsTell(run, events, cfg, i, j);
    tree := EmissionIs(run[j].db, r, limit, most);
  }

  lemma EmissionIs(db: Db, r: Reader, limit: nat, most: nat) returns (tree: seq<Candidate>)
    requires r.chunks == [] ==> r.tree == []
    ensures tree == if db.indexRevision == r.snapshot.indexRevision then r.tree else []
    ensures Emission(db, r, limit, most) ==
            if db.generation == r.snapshot.generation then Ok(Assembled(r.hits, r.pairs, tree, limit, most))
            else Err(VersionConflict)
  {
    hide Assembled;
    tree := if db.indexRevision == r.snapshot.indexRevision then r.tree else [];
  }
}
