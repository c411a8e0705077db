/** Assembling retrieved evidence (packages/python/src/cci/retrieve.py). */
module Retrieval {
  import opened Wrappers
  import opened Sequences
  import opened Records
  import opened Rendering

  /** An original-text excerpt nominated by search or by tree navigation. */
  datatype Candidate = Candidate(messageId: MessageId, seqNo: nat, pointer: Pointer, excerpt: string, hash: string)

  datatype CandidateKey = CandidateKey(messageId: MessageId, pointer: Pointer)

  /** A ranked item; the rank is its retrieval priority. */
  datatype Evidence = Evidence(rank: nat, candidate: Candidate)

  function KeyOf(c: Candidate): CandidateKey {
    CandidateKey(c.messageId, c.pointer)
  }

  function Keys(cs: seq<Candidate>): seq<CandidateKey> {
    seq(|cs|, i requires 0 <= i < |cs| => KeyOf(cs[i]))
  }

  // ---------------------------------------------------------------- identifiers

  function Digit(n: nat): char
    requires n < 10
  {
    "0123456789"[n]
  }

  function Decimal(n: nat): string {
    if n < 10 then [Digit(n)] else Decimal(n / 10) + [Digit(n % 10)]
  }

  function DigitValue(c: char): nat {
    if '0' <= c <= '9' then (c - '0') as nat else 0
  }

  function Value(s: string): nat {
    if s == "" then 0 else Value(s[..|s|-1]) * 10 + DigitValue(s[|s|-1])
  }

  function EvidenceId(rank: nat): string {
    "ev_" + Decimal(rank)
  }

  /** The only reader of evidence identifiers. */
  function EvidenceRank(id: string): nat {
    if "ev_" <= id then Value(id[3..]) else Value(id)
  }

  lemma {:induction false} DecimalValue(n: nat)
    ensures Value(Decimal(n)) == n
  {
    if n < 10 {
      assert Decimal(n)[..0] == "";
    } else {
      DecimalValue(n / 10);
      assert DigitValue(Digit(n % 10)) == n % 10;
      assert Decimal(n)[..|Decimal(n)|-1] == Decimal(n / 10);
    }
  }

  /** Reading an identifier back gives its rank. */
  lemma RankRoundTrip(rank: nat)
    ensures EvidenceRank(EvidenceId(rank)) == rank
  {
    DecimalValue(rank);
    assert EvidenceId(rank)[3..] == Decimal(rank);
  }

  function PointerText(p: Pointer): string {
    match p
    case Whole => "/content"
    case BlockAt(i) => "/content/" + Decimal(i) + "/text"
  }

  /** The text of a pointer names the content, or a block of it by its position. */
  lemma PointerRoundTrip(p: Pointer)
    ensures match p
            case Whole => PointerText(p) == "/content"
            case BlockAt(i) =>
              var t := PointerText(p);
              |t| > 14 && t[..9] == "/content/" && t[|t|-5..] == "/text" && Value(t[9..|t|-5]) == i
  {
    if p.BlockAt? {
      DecimalValue(p.index);
      assert PointerText(p)[9..|PointerText(p)|-5] == Decimal(p.index);
    }
  }

  function BlockOf(e: Evidence): EvidenceBlock {
    EvidenceBlock(EvidenceId(e.rank), PointerText(e.candidate.pointer), e.candidate.excerpt)
  }

  function BlocksOf(es: seq<Evidence>): (r: seq<EvidenceBlock>)
    ensures |r| == |es|
  {
    seq(|es|, i requires 0 <= i < |es| => BlockOf(es[i]))
  }

  // ---------------------------------------------------------------- keep-first by key

  predicate HasKey(cs: seq<Candidate>, k: CandidateKey) {
    exists i :: 0 <= i < |cs| && KeyOf(cs[i]) == k
  }

  /** A dictionary filled with `setdefault`, in insertion order. */
  function Distinct(cs: seq<Candidate>): seq<Candidate> {
    if cs == [] then []
    else
      var kept, last := Distinct(cs[..|cs|-1]), cs[|cs|-1];
      if HasKey(kept, KeyOf(last)) then kept else kept + [last]
  }

  lemma {:induction false} DistinctFacts(cs: seq<Candidate>)
    ensures NoDup(Keys(Distinct(cs)))
    ensures forall c :: c in Distinct(cs) ==> c in cs
    ensures forall k :: HasKey(Distinct(cs), k) <==> HasKey(cs, k)
  {
    if cs != [] {
      var init, last := cs[..|cs|-1], cs[|cs|-1];
      DistinctFacts(init);
      assert cs == init + [last];
      var kept := Distinct(init);
      hide Distinct;
      DistinctStep(cs);
      forall k ensures HasKey(cs, k) <==> HasKey(init, k) || k == KeyOf(last) {
        HasKeySnoc(init, last, k);
      }
      if !HasKey(kept, KeyOf(last)) {
        forall k ensures HasKey(kept + [last], k) <==> HasKey(kept, k) || k == KeyOf(last) {
          HasKeySnoc(kept, last, k);
        }
        KeysSnoc(kept, last);
      }
    }
  }

  lemma DistinctStep(cs: seq<Candidate>)
    requires cs != []
    ensures var kept, last := Distinct(cs[..|cs|-1]), cs[|cs|-1];
            Distinct(cs) == if HasKey(kept, KeyOf(last)) then kept else kept + [last]
  {}

  lemma HasKeySnoc(cs: seq<Candidate>, c: Candidate, k: CandidateKey)
    ensures HasKey(cs + [c], k) <==> HasKey(cs, k) || k == KeyOf(c)
  {
    if HasKey(cs, k) {
      var i :| 0 <= i < |cs| && KeyOf(cs[i]) == k;
      assert KeyOf((cs + [c])[i]) == k;
    }
    assert KeyOf((cs + [c])[|cs|]) == KeyOf(c);
  }

  lemma KeysSnoc(cs: seq<Candidate>, c: Candidate)
    requires NoDup(Keys(cs)) && !HasKey(cs, KeyOf(c))
    ensures NoDup(Keys(cs + [c]))
  {
    var ks := Keys(cs + [c]);
    forall i, j | 0 <= i < j < |ks| ensures ks[i] != ks[j] {
      assert ks[i] == Keys(cs)[i];
      if j < |cs| { assert ks[j] == Keys(cs)[j]; } else { assert KeyOf(cs[i]) != KeyOf(c); }
    }
  }

  /** `setdefault` keeps what is already there: a longer list extends the kept one. */
  lemma {:induction false} DistinctExtends(a: seq<Candidate>, b: seq<Candidate>)
    ensures Distinct(a) <= Distinct(a + b)
  {
    if b == [] {
      assert a + b == a;
    } else {
      DistinctExtends(a, b[..|b|-1]);
      assert (a + b)[..|a + b|-1] == a + b[..|b|-1];
    }
  }

  lemma {:induction false} DistinctOfDistinct(cs: seq<Candidate>)
    requires NoDup(Keys(cs))
    ensures Distinct(cs) == cs
  {
    if cs != [] {
      var init, last := cs[..|cs|-1], cs[|cs|-1];
      assert cs == init + [last];
      assert Keys(init) == Keys(cs)[..|init|];
      DistinctOfDistinct(init);
      forall i | 0 <= i < |init| ensures KeyOf(init[i]) != KeyOf(last) {
        assert Keys(cs)[i] != Keys(cs)[|init|];
      }
    }
  }

  // ---------------------------------------------------------------- the order of evidence

  datatype Link = Link(source: Candidate, linked: Candidate)

  /** The later mentions linked to any verbatim copy of a hit's text. */
  function LinkedTo(pairs: seq<Link>, hash: string): seq<Candidate> {
    if pairs == [] then []
    else
      var last := pairs[|pairs|-1];
      LinkedTo(pairs[..|pairs|-1], hash) + (if last.source.hash == hash then [last.linked] else [])
  }

  /** Each hit followed by its linked later mentions. */
  function Expanded(hits: seq<Candidate>, pairs: seq<Link>): seq<Candidate> {
    if hits == [] then []
    else
      var last := hits[|hits|-1];
      Expanded(hits[..|hits|-1], pairs) + [last] + LinkedTo(pairs, last.hash)
  }

  function Lexical(hits: seq<Candidate>, pairs: seq<Link>): seq<Candidate> {
    Distinct(Expanded(hits, pairs))
  }

  function Find(cs: seq<Candidate>, k: CandidateKey, otherwise: Candidate): Candidate {
    if cs == [] then otherwise else if KeyOf(cs[0]) == k then cs[0] else Find(cs[1..], k, otherwise)
  }

  /** Tree candidates, each replaced by its lexical form when it has one. */
  function Preferred(lexical: seq<Candidate>, tree: seq<Candidate>): seq<Candidate> {
    if tree == [] then []
    else Preferred(lexical, tree[..|tree|-1]) + [Find(lexical, KeyOf(tree[|tree|-1]), tree[|tree|-1])]
  }

  function Upto(cs: seq<Candidate>, limit: nat): seq<Candidate> {
    if |cs| <= limit then cs else cs[..limit]
  }

  /** The priority order: lexical items up to the limit, then tree-only items. */
  function Ranked(hits: seq<Candidate>, pairs: seq<Link>, tree: seq<Candidate>, limit: nat): seq<Candidate> {
    var lexical := Lexical(hits, pairs);
    Distinct(Upto(lexical, limit) + Preferred(lexical, tree))
  }

  function Numbered(cs: seq<Candidate>): (r: seq<Evidence>)
    ensures |r| == |cs|
  {
    seq(|cs|, i requires 0 <= i < |cs| => Evidence(i + 1, cs[i]))
  }

  predicate FitsBudget(es: seq<Evidence>, most: nat) {
    |Render(BlocksOf(es))| <= most
  }

  /** Items are taken in priority order whenever the rendered text still fits. */
  function Bounded(es: seq<Evidence>, most: nat): seq<Evidence> {
    if es == [] then []
    else
      var kept, last := Bounded(es[..|es|-1], most), es[|es|-1];
      if FitsBudget(kept + [last], most) then kept + [last] else kept
  }

  function BySeq(): Evidence -> int {
    (e: Evidence) => e.candidate.seqNo
  }

  function Assembled(hits: seq<Candidate>, pairs: seq<Link>, tree: seq<Candidate>, limit: nat,
                     most: nat): seq<Evidence> {
    SortBy(BySeq(), Bounded(Numbered(Ranked(hits, pairs, tree, limit)), most))
  }

  // ---------------------------------------------------------------- what the order guarantees

  lemma {:induction false} LinkedToFacts(pairs: seq<Link>, hash: string)
    ensures forall c :: c in LinkedTo(pairs, hash) ==> exists p :: p in pairs && p.linked == c
  {
    if pairs != [] {
      LinkedToFacts(pairs[..|pairs|-1], hash);
      assert pairs == pairs[..|pairs|-1] + [pairs[|pairs|-1]];
    }
  }

  ghost predicate Retrieved(hits: seq<Candidate>, pairs: seq<Link>, c: Candidate) {
    c in hits || exists p :: p in pairs && p.linked == c
  }

  lemma {:induction false} ExpandedFacts(hits: seq<Candidate>, pairs: seq<Link>)
    ensures forall c :: c in Expanded(hits, pairs) ==> Retrieved(hits, pairs, c)
  {
    if hits != [] {
      var init, last := hits[..|hits|-1], hits[|hits|-1];
      ExpandedFacts(init, pairs);
      LinkedToFacts(pairs, last.hash);
      assert hits == init + [last];
      forall c | c in Expanded(hits, pairs) ensures Retrieved(hits, pairs, c) {
        if c in Expanded(init, pairs) { assert Retrieved(init, pairs, c); }
      }
    }
  }

  lemma {:induction false} FindFacts(cs: seq<Candidate>, k: CandidateKey, otherwise: Candidate)
    requires KeyOf(otherwise) == k
    ensures KeyOf(Find(cs, k, otherwise)) == k
    ensures HasKey(cs, k) ==> Find(cs, k, otherwise) in cs
    ensures !HasKey(cs, k) ==> Find(cs, k, otherwise) == otherwise
  {
    if cs != [] {
      assert cs == [cs[0]] + cs[1..];
      FindFacts(cs[1..], k, otherwise);
      if HasKey(cs[1..], k) {
        var i :| 0 <= i < |cs[1..]| && KeyOf(cs[1..][i]) == k;
        assert KeyOf(cs[i+1]) == k;
      }
      assert HasKey(cs, k) && KeyOf(cs[0]) != k ==> HasKey(cs[1..], k) by {
        if i :| 0 <= i < |cs| && KeyOf(cs[i]) == k && KeyOf(cs[0]) != k { assert cs[1..][i-1] == cs[i]; }
      }
    }
  }

  lemma {:induction false} PreferredFacts(lexical: seq<Candidate>, tree: seq<Candidate>)
    ensures forall c :: c in Preferred(lexical, tree) ==>
              HasKey(tree, KeyOf(c)) && (c in lexical || (c in tree && !HasKey(lexical, KeyOf(c))))
  {
    if tree != [] {
      var init, last := tree[..|tree|-1], tree[|tree|-1];
      PreferredFacts(lexical, init);
      FindFacts(lexical, KeyOf(last), last);
      assert tree == init + [last];
      forall k ensures HasKey(tree, k) <==> HasKey(init, k) || k == KeyOf(last) {
        HasKeySnoc(init, last, k);
      }
    }
  }

  lemma HasKeyIn(cs: seq<Candidate>, c: Candidate)
    requires c in cs
    ensures HasKey(cs, KeyOf(c))
  {
    var i :| 0 <= i < |cs| && cs[i] == c;
    assert KeyOf(cs[i]) == KeyOf(c);
  }

  lemma {:induction false} LinkedToHas(pairs: seq<Link>, p: Link)
    requires p in pairs
    ensures p.linked in LinkedTo(pairs, p.source.hash)
  {
    assert pairs == pairs[..|pairs|-1] + [pairs[|pairs|-1]];
    if p in pairs[..|pairs|-1] { LinkedToHas(pairs[..|pairs|-1], p); }
  }

  lemma {:induction false} ExpandedHas(hits: seq<Candidate>, pairs: seq<Link>, h: Candidate)
    requires h in hits
    ensures h in Expanded(hits, pairs)
    ensures forall p :: p in pairs && p.source.hash == h.hash ==> p.linked in Expanded(hits, pairs)
  {
    var init, last := hits[..|hits|-1], hits[|hits|-1];
    assert hits == init + [last];
    if h in init {
      ExpandedHas(init, pairs, h);
    } else {
      forall p | p in pairs && p.source.hash == h.hash ensures p.linked in LinkedTo(pairs, h.hash) {
        LinkedToHas(pairs, p);
      }
    }
  }

  /** Every hit has its place, and so has every later mention linked to a source with its text. */
  ghost predicate AllNominated(hits: seq<Candidate>, pairs: seq<Link>, lexical: seq<Candidate>) {
    && (forall h :: h in hits ==> HasKey(lexical, KeyOf(h)))
    && (forall h, p :: h in hits && p in pairs && p.source.hash == h.hash ==> HasKey(lexical, KeyOf(p.linked)))
  }

  lemma LexicalHasAll(hits: seq<Candidate>, pairs: seq<Link>)
    ensures AllNominated(hits, pairs, Lexical(hits, pairs))
  {
    DistinctFacts(Expanded(hits, pairs));
    hide Expanded, Distinct, HasKey;
    forall h | h in hits ensures HasKey(Lexical(hits, pairs), KeyOf(h)) {
      ExpandedHas(hits, pairs, h);
      HasKeyIn(Expanded(hits, pairs), h);
    }
    forall h, p | h in hits && p in pairs && p.source.hash == h.hash
      ensures HasKey(Lexical(hits, pairs), KeyOf(p.linked))
    {
      ExpandedHas(hits, pairs, h);
      HasKeyIn(Expanded(hits, pairs), p.linked);
    }
  }

  lemma {:induction false} PreferredHas(lexical: seq<Candidate>, tree: seq<Candidate>, c: Candidate)
    requires c in tree
    ensures HasKey(Preferred(lexical, tree), KeyOf(c))
  {
    var init, last := tree[..|tree|-1], tree[|tree|-1];
    assert tree == init + [last];
    FindFacts(lexical, KeyOf(last), last);
    HasKeySnoc(Preferred(lexical, init), Find(lexical, KeyOf(last), last), KeyOf(c));
    if c in init { PreferredHas(lexical, init, c); }
  }

  /** No tree candidate is missing. */
  lemma RankedHasTree(hits: seq<Candidate>, pairs: seq<Link>, tree: seq<Candidate>, limit: nat, c: Candidate)
    requires c in tree
    ensures HasKey(Ranked(hits, pairs, tree, limit), KeyOf(c))
  {
    var lexical := Lexical(hits, pairs);
    var front, back := Upto(lexical, limit), Preferred(lexical, tree);
    DistinctFacts(front + back);
    PreferredHas(lexical, tree, c);
    hide Distinct, Preferred, Lexical;
    var i :| 0 <= i < |back| && KeyOf(back[i]) == KeyOf(c);
    assert KeyOf((front + back)[|front| + i]) == KeyOf(c);
    assert HasKey(front + back, KeyOf(c));
  }

  lemma UptoDistinct(cs: seq<Candidate>, limit: nat)
    requires NoDup(Keys(cs))
    ensures NoDup(Keys(Upto(cs, limit)))
  {
    var u := Upto(cs, limit);
    assert Keys(u) == Keys(cs)[..|u|];
  }

  /**
   * The priority order: every item once; the lexical items up to the limit come first, in their own
   * order; what follows lies in a selected chunk, as its lexical excerpt when search found it too.  The
   * lexical items are the hits and the later mentions linked to their texts, and no tree item is missing.
   */
  lemma RankedOrder(hits: seq<Candidate>, pairs: seq<Link>, tree: seq<Candidate>, limit: nat)
    ensures var lexical := Lexical(hits, pairs);
            var r := Ranked(hits, pairs, tree, limit);
            && NoDup(Keys(r)) && Upto(lexical, limit) <= r
            && (forall c :: c in r ==> c in lexical || (c in tree && !HasKey(lexical, KeyOf(c))))
            && (forall i :: |Upto(lexical, limit)| <= i < |r| ==> HasKey(tree, KeyOf(r[i])))
            && (forall c :: c in lexical ==> Retrieved(hits, pairs, c)) && AllNominated(hits, pairs, lexical)
            && (forall c :: c in tree ==> HasKey(r, KeyOf(c)))
  {
    LexicalHasAll(hits, pairs);
    forall c | c in tree ensures HasKey(Ranked(hits, pairs, tree, limit), KeyOf(c)) {
      RankedHasTree(hits, pairs, tree, limit, c);
    }
    var lexical := Lexical(hits, pairs);
    var front, back := Upto(lexical, limit), Preferred(lexical, tree);
    DistinctFacts(Expanded(hits, pairs));
    ExpandedFacts(hits, pairs);
    UptoDistinct(lexical, limit);
    DistinctOfDistinct(front);
    DistinctExtends(front, back);
    DistinctFacts(front + back);
    PreferredFacts(lexical, tree);
    var r := Ranked(hits, pairs, tree, limit);
    assert r == Distinct(front + back);
    hide Distinct, Preferred, Expanded, NoDup, HasKey, AllNominated;
    forall i | |front| <= i < |r| ensures HasKey(tree, KeyOf(r[i])) {
      LaterIsBack(front, back, r, i);
    }
  }

  lemma LaterIsBack(front: seq<Candidate>, back: seq<Candidate>, r: seq<Candidate>, i: nat)
    requires front <= r && |front| <= i < |r| && NoDup(Keys(r)) && forall c :: c in r ==> c in front + back
    ensures r[i] in back
  {
    assert r[i] in r;
    forall j | 0 <= j < |front| ensures front[j] != r[i] {
      assert Keys(r)[j] != Keys(r)[i];
    }
  }

  // ---------------------------------------------------------------- what the budget guarantees

  lemma {:induction false} BoundedFacts(es: seq<Evidence>, most: nat)
    ensures forall e :: e in Bounded(es, most) ==> e in es
    ensures FitsBudget(Bounded(es, most), most)
  {
    if es != [] {
      BoundedFacts(es[..|es|-1], most);
      assert es == es[..|es|-1] + [es[|es|-1]];
    } else {
      assert BlocksOf([]) == [] && RenderAll([]) == [];
    }
  }

  lemma {:induction false} MoreOverflows(kept: seq<Evidence>, more: seq<Evidence>, e: Evidence, most: nat)
    requires !FitsBudget(kept + [e], most) && kept <= more
    ensures !FitsBudget(more + [e], most)
  {
    var rest := more[|kept|..];
    assert more == kept + rest;
    assert BlocksOf(kept + [e]) == BlocksOf(kept) + BlocksOf([e]);
    assert BlocksOf(more + [e]) == BlocksOf(kept) + BlocksOf(rest) + BlocksOf([e]);
    hide Render, Cost, BlocksOf;
    CostConcat(BlocksOf(kept), BlocksOf([e]));
    CostConcat(BlocksOf(kept) + BlocksOf(rest), BlocksOf([e]));
    CostConcat(BlocksOf(kept), BlocksOf(rest));
    RenderLength(BlocksOf(kept + [e]));
    RenderLength(BlocksOf(more + [e]));
  }

  lemma {:induction false} BoundedGrows(es: seq<Evidence>, n: nat, most: nat)
    requires n <= |es|
    ensures Bounded(es[..n], most) <= Bounded(es, most)
  {
    if n == |es| {
      assert es[..n] == es;
    } else {
      BoundedGrows(es[..|es|-1], n, most);
      assert es[..|es|-1][..n] == es[..n];
    }
  }

  lemma TakenWhenItFits(es: seq<Evidence>, most: nat, i: nat)
    requires i < |es| && FitsBudget(Bounded(es[..i], most) + [es[i]], most)
    ensures es[i] in Bounded(es, most)
  {
    var kept := Bounded(es[..i], most);
    assert es[..i+1][..i] == es[..i] && es[..i+1][i] == es[i];
    BoundedGrows(es, i + 1, most);
    assert Bounded(es[..i+1], most) == kept + [es[i]];
    assert (kept + [es[i]])[|kept|] == es[i];
    assert Bounded(es, most)[|kept|] == es[i];
  }

  /** Every item left out would overflow the budget beside what was kept. */
  lemma OmittedDoNotFit(es: seq<Evidence>, most: nat, i: nat)
    requires i < |es| && es[i] !in Bounded(es, most)
    ensures !FitsBudget(Bounded(es, most) + [es[i]], most)
  {
    BoundedGrows(es, i, most);
    if FitsBudget(Bounded(es[..i], most) + [es[i]], most) {
      TakenWhenItFits(es, most, i);
    } else {
      MoreOverflows(Bounded(es[..i], most), Bounded(es, most), es[i], most);
    }
  }

  lemma {:induction false} BlocksOfMultiset(a: seq<Evidence>, b: seq<Evidence>)
    requires multiset(a) == multiset(b)
    ensures multiset(BlocksOf(a)) == multiset(BlocksOf(b))
    decreases |a|
  {
    hide *;
    if a == [] {
      assert |multiset(b)| == |b| && |multiset(a)| == 0;
      assert b == [];
    } else {
      var j := Position(b, a[0]);
      TakeOut(a, 0);
      TakeOut(b, j);
      BlocksOfWithout(a, 0);
      BlocksOfWithout(b, j);
      BlocksOfMultiset(RemoveAt(a, 0), RemoveAt(b, j));
    }
  }

  lemma BlocksOfWithout(es: seq<Evidence>, j: nat)
    requires j < |es|
    ensures multiset(BlocksOf(es)) == multiset(BlocksOf(RemoveAt(es, j))) + multiset{BlockOf(es[j])}
  {
    TakeOut(BlocksOf(es), j);
    assert RemoveAt(BlocksOf(es), j) == BlocksOf(RemoveAt(es, j));
    assert BlocksOf(es)[j] in multiset(BlocksOf(es));
  }

  /** The evidence shown, in conversation order, fits the budget it was chosen under. */
  lemma AssembledFits(hits: seq<Candidate>, pairs: seq<Link>, tree: seq<Candidate>, limit: nat, most: nat)
    ensures FitsBudget(Assembled(hits, pairs, tree, limit, most), most)
    ensures SortedBy(BySeq(), Assembled(hits, pairs, tree, limit, most))
    ensures forall e :: e in Assembled(hits, pairs, tree, limit, most) ==>
              e.candidate in Ranked(hits, pairs, tree, limit)
  {
    var numbered := Numbered(Ranked(hits, pairs, tree, limit));
    var kept := Bounded(numbered, most);
    var shown := SortBy(BySeq(), kept);
    SortByFacts(BySeq(), kept);
    BoundedFacts(numbered, most);
    BlocksOfMultiset(shown, kept);
    CostOfMultiset(BlocksOf(shown), BlocksOf(kept));
    RenderLength(BlocksOf(shown));
    RenderLength(BlocksOf(kept));
    forall e | e in shown ensures e.candidate in Ranked(hits, pairs, tree, limit) {
      assert e in kept && e in numbered;
    }
  }

  // ---------------------------------------------------------------- the assembly as it runs

  /** The keys linked from a source, over every hit with its key. */
  function LinkedKeys(hits: seq<Candidate>, pairs: seq<Link>, source: CandidateKey): seq<CandidateKey> {
    if hits == [] then []
    else
      var last := hits[|hits|-1];
      LinkedKeys(hits[..|hits|-1], pairs, source) + (if KeyOf(last) == source then Keys(LinkedTo(pairs, last.hash))
                                                     else [])
  }

  function Kept(keys: seq<CandidateKey>, returned: set<CandidateKey>): seq<CandidateKey> {
    if keys == [] then []
    else Kept(keys[..|keys|-1], returned) + (if keys[|keys|-1] in returned then [keys[|keys|-1]] else [])
  }

  function Returned(es: seq<Evidence>): set<CandidateKey> {
    set e | e in es :: KeyOf(e.candidate)
  }

  /** The links handed on: exactly those whose two ends were both returned. */
  ghost predicate LinksReturned(hits: seq<Candidate>, pairs: seq<Link>, es: seq<Evidence>,
                                links: map<CandidateKey, seq<CandidateKey>>) {
    forall s :: (s in links <==> s in Returned(es) && Kept(LinkedKeys(hits, pairs, s), Returned(es)) != []) &&
                (s in links ==> links[s] == Kept(LinkedKeys(hits, pairs, s), Returned(es)))
  }

  function Lookup<K(==), V>(m: map<K, seq<V>>, k: K): seq<V> {
    if k in m then m[k] else []
  }

  method GroupLinks(pairs: seq<Link>) returns (byText: map<string, seq<Candidate>>)
    ensures forall h :: Lookup(byText, h) == LinkedTo(pairs, h)
  {
    byText := map[];
    for i := 0 to |pairs|
      invariant forall h :: Lookup(byText, h) == LinkedTo(pairs[..i], h)
    {
      assert pairs[..i+1][..i] == pairs[..i];
      var p := pairs[i];
      byText := byText[p.source.hash := Lookup(byText, p.source.hash) + [p.linked]];
    }
    assert pairs[..|pairs|] == pairs;
  }

  method SetDefaults(kept: seq<Candidate>, more: seq<Candidate>, ghost before: seq<Candidate>)
    returns (all: seq<Candidate>)
    requires kept == Distinct(before)
    ensures all == Distinct(before + more)
  {
    all := kept;
    assert before + more[..0] == before;
    for i := 0 to |more|
      invariant all == Distinct(before + more[..i])
    {
      assert (before + more[..i+1])[..|before| + i] == before + more[..i];
      if !HasKey(all, KeyOf(more[i])) {
        all := all + [more[i]];
      }
    }
    assert more[..|more|] == more;
  }

  method CollectLexical(hits: seq<Candidate>, pairs: seq<Link>)
    returns (lexical: seq<Candidate>, linkedTo: map<CandidateKey, seq<CandidateKey>>)
    ensures lexical == Lexical(hits, pairs)
    ensures forall s :: Lookup(linkedTo, s) == LinkedKeys(hits, pairs, s)
  {
    var byText := GroupLinks(pairs);
    lexical, linkedTo := [], map[];
    NothingLinked(hits, pairs);
    hide *;
    for i := 0 to |hits|
      invariant lexical == Distinct(Expanded(hits[..i], pairs))
      invariant forall s :: Lookup(linkedTo, s) == LinkedKeys(hits[..i], pairs, s)
    {
      var hit := hits[i];
      var linked := Lookup(byText, hit.hash);
      ExpandedNext(hits, pairs, i);
      lexical := SetDefaults(lexical, [hit] + linked, Expanded(hits[..i], pairs));
      LinkedKeysNext(hits, pairs, i, linkedTo);
      linkedTo := linkedTo[KeyOf(hit) := Lookup(linkedTo, KeyOf(hit)) + Keys(linked)];
    }
    assert hits[..|hits|] == hits;
    LexicalIs(hits, pairs);
  }

  lemma NothingLinked(hits: seq<Candidate>, pairs: seq<Link>)
    ensures Distinct(Expanded(hits[..0], pairs)) == []
    ensures forall s :: Lookup(map[], s) == LinkedKeys(hits[..0], pairs, s)
  {}

  lemma LexicalIs(hits: seq<Candidate>, pairs: seq<Link>)
    ensures Lexical(hits, pairs) == Distinct(Expanded(hits, pairs))
  {}

  lemma ExpandedNext(hits: seq<Candidate>, pairs: seq<Link>, i: nat)
    requires i < |hits|
    ensures Expanded(hits[..i+1], pairs) == Expanded(hits[..i], pairs) + ([hits[i]] + LinkedTo(pairs, hits[i].hash))
  {
    hide LinkedTo;
    assert hits[..i+1][..i] == hits[..i];
  }

  lemma LinkedKeysNext(hits: seq<Candidate>, pairs: seq<Link>, i: nat, linkedTo: map<CandidateKey, seq<CandidateKey>>)
    requires i < |hits| && forall s :: Lookup(linkedTo, s) == LinkedKeys(hits[..i], pairs, s)
    ensures var k := KeyOf(hits[i]);
            var after := linkedTo[k := Lookup(linkedTo, k) + Keys(LinkedTo(pairs, hits[i].hash))];
            forall s :: Lookup(after, s) == LinkedKeys(hits[..i+1], pairs, s)
  {
    hide LinkedTo, Keys;
    assert hits[..i+1][..i] == hits[..i];
    var k := KeyOf(hits[i]);
    var after := linkedTo[k := Lookup(linkedTo, k) + Keys(LinkedTo(pairs, hits[i].hash))];
    forall s ensures Lookup(after, s) == LinkedKeys(hits[..i+1], pairs, s) {
      assert Lookup(linkedTo, s) == LinkedKeys(hits[..i], pairs, s);
    }
  }

  /** Numbering the priority order and taking what fits. */
  method TakeWhatFits(ranked: seq<Candidate>, most: nat) returns (bounded: seq<Evidence>)
    ensures bounded == Bounded(Numbered(ranked), most)
  {
    var evidence := Numbered(ranked);
    bounded := [];
    for i := 0 to |evidence|
      invariant bounded == Bounded(evidence[..i], most)
    {
      assert evidence[..i+1][..i] == evidence[..i];
      var text := RenderEvidence(BlocksOf(bounded + [evidence[i]]));
      if |text| <= most {
        bounded := bounded + [evidence[i]];
      }
    }
    assert evidence[..|evidence|] == evidence;
  }

  method Assemble(hits: seq<Candidate>, pairs: seq<Link>, tree: seq<Candidate>, limit: nat, most: nat)
    returns (evidence: seq<Evidence>, omitted: nat, links: map<CandidateKey, seq<CandidateKey>>)
    ensures evidence == Assembled(hits, pairs, tree, limit, most)
    ensures |evidence| + omitted == |Ranked(hits, pairs, tree, limit)|
    ensures LinksReturned(hits, pairs, evidence, links)
  {
    var lexical, linkedTo := CollectLexical(hits, pairs);
    hide Distinct, Expanded, LinkedKeys, Bounded;
    var front := Upto(lexical, limit);
    DistinctFacts(Expanded(hits, pairs));
    UptoDistinct(lexical, limit);
    DistinctOfDistinct(front);
    var preferred: seq<Candidate> := [];
    for i := 0 to |tree|
      invariant preferred == Preferred(lexical, tree[..i])
    {
      assert tree[..i+1][..i] == tree[..i];
      preferred := preferred + [Find(lexical, KeyOf(tree[i]), tree[i])];
    }
    assert tree[..|tree|] == tree;
    var ranked := SetDefaults(front, preferred, front);
    var bounded := TakeWhatFits(ranked, most);
    BoundedLength(Numbered(ranked), most);
    omitted := |ranked| - |bounded|;
    evidence := SortBy(BySeq(), bounded);
    SortByFacts(BySeq(), bounded);
    var returned := Returned(evidence);
    links := map s | s in linkedTo && s in returned && Kept(linkedTo[s], returned) != [] :: Kept(linkedTo[s], returned);
    assert LinksReturned(hits, pairs, evidence, links) by { RestrictLinks(hits, pairs, evidence, linkedTo, links); }
  }

  lemma RestrictLinks(hits: seq<Candidate>, pairs: seq<Link>, es: seq<Evidence>,
                      linkedTo: map<CandidateKey, seq<CandidateKey>>, links: map<CandidateKey, seq<CandidateKey>>)
    requires forall s :: Lookup(linkedTo, s) == LinkedKeys(hits, pairs, s)
    requires links == map s | s in linkedTo && s in Returned(es) && Kept(linkedTo[s], Returned(es)) != [] ::
               Kept(linkedTo[s], Returned(es))
    ensures LinksReturned(hits, pairs, es, links)
  {
    hide LinkedKeys, Returned;
    forall s ensures (s in links <==> s in Returned(es) && Kept(LinkedKeys(hits, pairs, s), Returned(es)) != []) &&
                     (s in links ==> links[s] == Kept(LinkedKeys(hits, pairs, s), Returned(es)))
    {
      assert Lookup(linkedTo, s) == LinkedKeys(hits, pairs, s);
    }
  }

  lemma {:induction false} BoundedLength(es: seq<Evidence>, most: nat)
    ensures |Bounded(es, most)| <= |es|
  {
    if es != [] { BoundedLength(es[..|es|-1], most); }
  }

  // ---------------------------------------------------------------- copies of one text

  datatype Text = Text(hash: string, pointer: Pointer)

  function TextOf(e: Evidence): Text {
    Text(e.candidate.hash, e.candidate.pointer)
  }

  /** The earliest item of one text among `es`; ties keep the higher priority. */
  ghost predicate Earliest(es: seq<Evidence>, e: Evidence) {
    e in es && forall x :: x in es && TextOf(x) == TextOf(e) ==> e.candidate.seqNo <= x.candidate.seqNo
  }

  ghost predicate OneEach(first: seq<Evidence>) {
    forall i, j :: 0 <= i < j < |first| ==> TextOf(first[i]) != TextOf(first[j])
  }

  /** The members of one text, in priority order. */
  function GroupOf(es: seq<Evidence>, t: Text): seq<Evidence> {
    if es == [] then []
    else GroupOf(es[..|es|-1], t) + (if TextOf(es[|es|-1]) == t then [es[|es|-1]] else [])
  }

  /** The texts in order of first appearance. */
  function Texts(es: seq<Evidence>): seq<Text> {
    if es == [] then []
    else
      var ts, t := Texts(es[..|es|-1]), TextOf(es[|es|-1]);
      if t in ts then ts else ts + [t]
  }

  lemma {:induction false} TextsFacts(es: seq<Evidence>)
    ensures NoDup(Texts(es)) && forall e :: e in es ==> TextOf(e) in Texts(es)
    ensures forall t :: t in Texts(es) ==> GroupOf(es, t) != []
  {
    if es != [] {
      var init, last := es[..|es|-1], es[|es|-1];
      TextsFacts(init);
      assert es == init + [last];
      if TextOf(last) !in Texts(init) {
        var ts := Texts(init) + [TextOf(last)];
        forall i, j | 0 <= i < j < |ts| ensures ts[i] != ts[j] {
          if j == |ts| - 1 { assert ts[i] in Texts(init); }
        }
      }
      forall t | t in Texts(es) ensures GroupOf(es, t) != [] {
        assert t in Texts(init) || t == TextOf(last);
      }
    }
  }

  lemma {:induction false} GroupFacts(es: seq<Evidence>, t: Text)
    ensures forall e :: e in GroupOf(es, t) <==> e in es && TextOf(e) == t
  {
    if es != [] {
      GroupFacts(es[..|es|-1], t);
      assert es == es[..|es|-1] + [es[|es|-1]];
    }
  }

  /** The groups of several texts one after another. */
  function Regrouped(es: seq<Evidence>, ts: seq<Text>): seq<Evidence> {
    if ts == [] then [] else Regrouped(es, ts[..|ts|-1]) + GroupOf(es, ts[|ts|-1])
  }

  lemma {:induction false} RegroupedSnoc(es: seq<Evidence>, e: Evidence, ts: seq<Text>)
    requires NoDup(ts)
    ensures multiset(Regrouped(es + [e], ts)) ==
            multiset(Regrouped(es, ts)) + (if TextOf(e) in ts then multiset{e} else multiset{})
  {
    if ts != [] {
      var init, last := ts[..|ts|-1], ts[|ts|-1];
      assert ts == init + [last] && NoDup(init) && last !in init;
      RegroupedSnoc(es, e, init);
      assert (es + [e])[..|es|] == es;
    }
  }

  lemma {:induction false} RegroupedAll(es: seq<Evidence>, ts: seq<Text>)
    requires NoDup(ts) && forall e :: e in es ==> TextOf(e) in ts
    ensures multiset(Regrouped(es, ts)) == multiset(es)
  {
    if es == [] {
      RegroupedNone(ts);
    } else {
      var init, last := es[..|es|-1], es[|es|-1];
      assert es == init + [last];
      RegroupedAll(init, ts);
      RegroupedSnoc(init, last, ts);
    }
  }

  lemma {:induction false} RegroupedNone(ts: seq<Text>)
    ensures Regrouped([], ts) == []
  {
    if ts != [] { RegroupedNone(ts[..|ts|-1]); }
  }

  lemma NoGroups(ranked: seq<Evidence>)
    ensures forall t :: Lookup(map[], t) == GroupOf(ranked[..0], t)
  {}

  lemma GroupsNext(ranked: seq<Evidence>, i: nat, groups: map<Text, seq<Evidence>>)
    requires i < |ranked| && forall t :: Lookup(groups, t) == GroupOf(ranked[..i], t)
    ensures var t := TextOf(ranked[i]);
            var after := groups[t := Lookup(groups, t) + [ranked[i]]];
            forall u :: Lookup(after, u) == GroupOf(ranked[..i+1], u)
  {
    assert ranked[..i+1][..i] == ranked[..i];
    var t := TextOf(ranked[i]);
    var after := groups[t := Lookup(groups, t) + [ranked[i]]];
    forall u ensures Lookup(after, u) == GroupOf(ranked[..i+1], u) {
      assert Lookup(groups, u) == GroupOf(ranked[..i], u);
    }
  }

  /** Position `j` holds the first of the group's earliest items. */
  ghost predicate IsFirstEarliest(group: seq<Evidence>, j: nat) {
    && j < |group|
    && (forall i :: 0 <= i < |group| ==> group[j].candidate.seqNo <= group[i].candidate.seqNo)
    && (forall i :: 0 <= i < j ==> group[j].candidate.seqNo < group[i].candidate.seqNo)
  }

  /** Python's `min(group, key=seq)`. */
  method EarliestAt(group: seq<Evidence>) returns (j: nat)
    requires group != []
    ensures IsFirstEarliest(group, j)
  {
    j := 0;
    for k := 1 to |group|
      invariant j < k
      invariant forall i :: 0 <= i < k ==> group[j].candidate.seqNo <= group[i].candidate.seqNo
      invariant forall i :: 0 <= i < j ==> group[j].candidate.seqNo < group[i].candidate.seqNo
    {
      if group[k].candidate.seqNo < group[j].candidate.seqNo {
        j := k;
      }
    }
  }

  method GroupByText(ranked: seq<Evidence>) returns (groups: map<Text, seq<Evidence>>, order: seq<Text>)
    ensures order == Texts(ranked)
    ensures forall t :: Lookup(groups, t) == GroupOf(ranked, t)
  {
    groups, order := map[], [];
    hide GroupOf;
    NoGroups(ranked);
    for i := 0 to |ranked|
      invariant order == Texts(ranked[..i])
      invariant forall t :: Lookup(groups, t) == GroupOf(ranked[..i], t)
    {
      assert ranked[..i+1][..i] == ranked[..i];
      var t := TextOf(ranked[i]);
      GroupsNext(ranked, i, groups);
      groups := groups[t := Lookup(groups, t) + [ranked[i]]];
      if t !in order {
        order := order + [t];
      }
    }
    assert ranked[..|ranked|] == ranked;
  }

  /** The representatives found for the first texts, and where each stands in its group. */
  ghost predicate Representatives(ranked: seq<Evidence>, order: seq<Text>, n: nat, first: seq<Evidence>, at: seq<nat>) {
    && |first| == |at| == n <= |order|
    && forall i :: 0 <= i < n ==> Represents(ranked, order[i], first[i], at[i])
  }

  ghost predicate Represents(ranked: seq<Evidence>, t: Text, e: Evidence, j: nat) {
    IsFirstEarliest(GroupOf(ranked, t), j) && e == GroupOf(ranked, t)[j]
  }

  /** What is left of the groups, text after text, without their representatives. */
  function CopiesOf(ranked: seq<Evidence>, ts: seq<Text>, at: seq<nat>): seq<Evidence>
    requires |at| == |ts|
  {
    if ts == [] then []
    else
      var group, j := GroupOf(ranked, ts[|ts|-1]), at[|at|-1];
      CopiesOf(ranked, ts[..|ts|-1], at[..|at|-1]) + (if j < |group| then RemoveAt(group, j) else group)
  }

  /** Texts come in the order of their best item: an item of the one precedes all items of the other. */
  lemma {:induction false} TextsByPriority(es: seq<Evidence>, i: nat, j: nat) returns (p: nat)
    requires i < j < |Texts(es)|
    ensures p < |es| && TextOf(es[p]) == Texts(es)[i]
    ensures forall q :: 0 <= q <= p ==> TextOf(es[q]) != Texts(es)[j]
  {
    var init, last := es[..|es|-1], TextOf(es[|es|-1]);
    TextsFacts(init);
    if j < |Texts(init)| {
      p := TextsByPriority(init, i, j);
    } else {
      assert Texts(es) == Texts(init) + [last];
      TextHasItem(init, Texts(init)[i]);
      p :| 0 <= p < |init| && TextOf(init[p]) == Texts(init)[i];
      forall q | 0 <= q <= p ensures TextOf(es[q]) != last {
        assert init[q] in init;
      }
    }
  }

  lemma TextHasItem(es: seq<Evidence>, t: Text)
    requires t in Texts(es)
    ensures exists p :: 0 <= p < |es| && TextOf(es[p]) == t
  {
    TextsFacts(es);
    GroupFacts(es, t);
    var e := GroupOf(es, t)[0];
    assert e in GroupOf(es, t);
    assert e in es;
  }

  /** A group keeps the priority order: whatever ascends along the list ascends along the group. */
  lemma {:induction false} GroupKeepsOrder(es: seq<Evidence>, t: Text, rank: Evidence -> int)
    requires SortedBy(rank, es)
    ensures SortedBy(rank, GroupOf(es, t))
  {
    if es != [] {
      var init, last := es[..|es|-1], es[|es|-1];
      assert es == init + [last];
      forall i, j | 0 <= i < j < |init| ensures rank(init[i]) <= rank(init[j]) {
        assert es[i] == init[i] && es[j] == init[j];
      }
      GroupKeepsOrder(init, t, rank);
      GroupFacts(init, t);
      var g := GroupOf(init, t);
      forall i | 0 <= i < |g| ensures rank(g[i]) <= rank(last) {
        assert g[i] in init;
        var k :| 0 <= k < |init| && init[k] == g[i];
        assert es[k] == g[i] && es[|es|-1] == last;
      }
    }
  }

  /**
   * Each distinct text gets one representative before any copy: the texts in the order of their best item,
   * each by its earliest item.  The copies follow, text after text in the same order, each text's in
   * priority order.  Nothing is lost and nothing is duplicated.
   */
  method GroupCopies(ranked: seq<Evidence>) returns (first: seq<Evidence>, copies: seq<Evidence>, ghost at: seq<nat>)
    ensures Representatives(ranked, Texts(ranked), |Texts(ranked)|, first, at)
            && copies == CopiesOf(ranked, Texts(ranked), at)
    ensures multiset(first + copies) == multiset(ranked)
    ensures OneEach(first) && forall e :: e in first ==> Earliest(ranked, e)
    ensures forall e :: e in ranked ==> exists r :: r in first && TextOf(r) == TextOf(e)
  {
    var groups, order := GroupByText(ranked);
    TextsFacts(ranked);
    hide *;
    first, copies, at := [], [], [];
    NothingGrouped(ranked, order);
    for i := 0 to |order|
      invariant Representatives(ranked, order, i, first, at) && |at| == i && copies == CopiesOf(ranked, order[..i], at)
      invariant multiset(first + copies) == multiset(Regrouped(ranked, order[..i]))
    {
      var group := Lookup(groups, order[i]);
      GroupNonEmpty(ranked, order, i);
      var j := EarliestAt(group);
      FirstInRange(group, j);
      TakeOut(group, j);
      RegroupedMore(ranked, order, i, first, copies, at, j);
      first, copies, at := first + [group[j]], copies + RemoveAt(group, j), at + [j];
    }
    assert order[..|order|] == order;
    RegroupedAll(ranked, order);
    RepresentativeFacts(ranked, order, first, at);
  }

  lemma FirstInRange(group: seq<Evidence>, j: nat)
    requires IsFirstEarliest(group, j)
    ensures j < |group|
  {}

  lemma NothingGrouped(ranked: seq<Evidence>, order: seq<Text>)
    ensures Representatives(ranked, order, 0, [], []) && Regrouped(ranked, order[..0]) == []
    ensures CopiesOf(ranked, order[..0], []) == []
  {}

  lemma GroupNonEmpty(ranked: seq<Evidence>, order: seq<Text>, i: nat)
    requires i < |order| && forall t :: t in order ==> GroupOf(ranked, t) != []
    ensures GroupOf(ranked, order[i]) != []
  {
    assert order[i] in order;
  }

  lemma RegroupedMore(ranked: seq<Evidence>, order: seq<Text>, i: nat, first: seq<Evidence>, copies: seq<Evidence>,
                      at: seq<nat>, j: nat)
    requires i < |order| && j < |GroupOf(ranked, order[i])| && Representatives(ranked, order, i, first, at) && |at| == i
    requires copies == CopiesOf(ranked, order[..i], at)
    requires multiset(first + copies) == multiset(Regrouped(ranked, order[..i]))
    requires var g := GroupOf(ranked, order[i]);
             multiset(RemoveAt(g, j)) == multiset(g) - multiset{g[j]} && IsFirstEarliest(g, j)
    ensures var g := GroupOf(ranked, order[i]);
            && Representatives(ranked, order, i + 1, first + [g[j]], at + [j])
            && copies + RemoveAt(g, j) == CopiesOf(ranked, order[..i+1], at + [j])
            && multiset(first + [g[j]] + (copies + RemoveAt(g, j))) == multiset(Regrouped(ranked, order[..i+1]))
  {
    hide *;
    var g := GroupOf(ranked, order[i]);
    RepresentsMore(ranked, order, i, first, at, g[j], j);
    CopiesMore(ranked, order, i, at, j);
    RegroupedNext(ranked, order, i);
    assert g[j] in multiset(g);
  }

  lemma RepresentsMore(ranked: seq<Evidence>, order: seq<Text>, i: nat, first: seq<Evidence>, at: seq<nat>, e: Evidence,
                       j: nat)
    requires i < |order| && Representatives(ranked, order, i, first, at)
             && IsFirstEarliest(GroupOf(ranked, order[i]), j)
    requires j < |GroupOf(ranked, order[i])| && e == GroupOf(ranked, order[i])[j]
    ensures Representatives(ranked, order, i + 1, first + [e], at + [j])
  {
    hide GroupOf, IsFirstEarliest;
  }

  lemma CopiesMore(ranked: seq<Evidence>, order: seq<Text>, i: nat, at: seq<nat>, j: nat)
    requires i < |order| && |at| == i && j < |GroupOf(ranked, order[i])|
    ensures CopiesOf(ranked, order[..i+1], at + [j]) ==
              CopiesOf(ranked, order[..i], at) + RemoveAt(GroupOf(ranked, order[i]), j)
  {
    hide GroupOf, RemoveAt;
    assert order[..i+1][..i] == order[..i] && (at + [j])[..i] == at;
  }

  lemma RegroupedNext(ranked: seq<Evidence>, order: seq<Text>, i: nat)
    requires i < |order|
    ensures Regrouped(ranked, order[..i+1]) == Regrouped(ranked, order[..i]) + GroupOf(ranked, order[i])
  {
    hide GroupOf;
    assert order[..i+1][..i] == order[..i];
  }

  lemma EarliestInGroup(ranked: seq<Evidence>, t: Text, e: Evidence, j: nat)
    requires Represents(ranked, t, e, j)
    ensures Earliest(ranked, e) && TextOf(e) == t
  {
    GroupFacts(ranked, t);
    var g := GroupOf(ranked, t);
    assert g[j] in g;
    forall x | x in ranked && TextOf(x) == t ensures g[j].candidate.seqNo <= x.candidate.seqNo {
      assert x in g;
      var i :| 0 <= i < |g| && g[i] == x;
    }
  }

  lemma RepresentativeFacts(ranked: seq<Evidence>, order: seq<Text>, first: seq<Evidence>, at: seq<nat>)
    requires Representatives(ranked, order, |order|, first, at) && NoDup(order)
    requires forall e :: e in ranked ==> TextOf(e) in order
    ensures OneEach(first) && (forall e :: e in first ==> Earliest(ranked, e))
    ensures forall e :: e in ranked ==> exists r :: r in first && TextOf(r) == TextOf(e)
  {
    forall i | 0 <= i < |order| ensures Earliest(ranked, first[i]) && TextOf(first[i]) == order[i] {
      assert Represents(ranked, order[i], first[i], at[i]);
      EarliestInGroup(ranked, order[i], first[i], at[i]);
    }
    hide Earliest, Represents;
    forall e | e in ranked ensures exists r :: r in first && TextOf(r) == TextOf(e) {
      var i :| 0 <= i < |order| && order[i] == TextOf(e);
      assert first[i] in first;
    }
  }
}
