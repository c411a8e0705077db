/**
 * Which evidence a retrieval returns, in which order and with which links, said over the hits, the pairs and the
 * tree candidates themselves (packages/python/src/cci/retrieve.py).
 */
module EvidenceOrder {
  import opened Wrappers
  import opened Sequences
  import opened Records
  import opened Rendering
  import opened Retrieval

  ghost predicate HasIdentity(c: Candidate, k: CandidateKey) {
    c.messageId == k.messageId && c.pointer == k.pointer
  }

  ghost predicate SameIdentity(c: Candidate, d: Candidate) {
    c.messageId == d.messageId && c.pointer == d.pointer
  }

  // ---------------------------------------------------------------- keeping the first of each

  /** No earlier candidate names the same piece of the same message. */
  ghost predicate IsFirst(all: seq<Candidate>, i: nat) {
    i < |all| && forall j :: 0 <= j < i ==> !SameIdentity(all[j], all[i])
  }

  /** What is kept are the first candidates with their identities, in order. */
  ghost predicate KeepsFirst(all: seq<Candidate>, kept: seq<Candidate>) {
    exists at :: FirstsAt(all, at) && ArePicked(all, at, kept)
  }

  ghost predicate FirstsAt(all: seq<Candidate>, at: seq<nat>) {
    Rising(at) && forall i: nat :: i in at <==> IsFirst(all, i)
  }

  ghost predicate ArePicked(all: seq<Candidate>, at: seq<nat>, kept: seq<Candidate>) {
    |kept| == |at| && forall k :: 0 <= k < |at| ==> at[k] < |all| && kept[k] == all[at[k]]
  }

  lemma FirstsBelow(all: seq<Candidate>, at: seq<nat>, k: nat)
    requires FirstsAt(all, at) && k < |at|
    ensures at[k] < |all|
  {
    assert at[k] in at;
  }

  lemma {:induction false} DistinctKeepsFirst(all: seq<Candidate>) returns (at: seq<nat>)
    ensures FirstsAt(all, at) && ArePicked(all, at, Distinct(all))
  {
    if all == [] {
      at := [];
    } else {
      var n := |all| - 1;
      var before := DistinctKeepsFirst(all[..n]);
      at := if HasKey(Distinct(all[..n]), KeyOf(all[n])) then before else before + [n];
      DistinctStep(all);
      LastIsFirst(all);
      FirstsMore(all, before);
      PickedMore(all, before, Distinct(all[..n]));
      hide FirstsAt, ArePicked, Distinct, HasKey;
    }
  }

  lemma LastIsFirst(all: seq<Candidate>)
    requires all != []
    ensures var n := |all| - 1; IsFirst(all, n) <==> !HasKey(Distinct(all[..n]), KeyOf(all[n]))
  {
    var n := |all| - 1;
    DistinctFacts(all[..n]);
    hide Distinct;
    if HasKey(all[..n], KeyOf(all[n])) {
      var j :| 0 <= j < n && KeyOf(all[..n][j]) == KeyOf(all[n]);
      assert SameIdentity(all[j], all[n]);
    } else {
      forall j | 0 <= j < n ensures !SameIdentity(all[j], all[n]) { assert all[..n][j] == all[j]; }
    }
  }

  lemma FirstsMore(all: seq<Candidate>, before: seq<nat>)
    requires all != [] && FirstsAt(all[..|all|-1], before)
    ensures var n := |all| - 1; FirstsAt(all, if IsFirst(all, n) then before + [n] else before)
  {
    var n := |all| - 1;
    forall i: nat | i < n ensures IsFirst(all[..n], i) <==> IsFirst(all, i) {}
    hide IsFirst;
    forall k | 0 <= k < |before| ensures before[k] < n { FirstsBelow(all[..n], before, k); }
    var at := if IsFirst(all, n) then before + [n] else before;
    forall i: nat ensures i in at <==> IsFirst(all, i) {
      if IsFirst(all, i) { FirstBelow(all, i); }
      if i in before { FirstBelow(all[..n], i); }
    }
    assert Rising(at);
  }

  lemma PickedMore(all: seq<Candidate>, before: seq<nat>, kept: seq<Candidate>)
    requires all != [] && ArePicked(all[..|all|-1], before, kept)
    ensures ArePicked(all, before, kept) && ArePicked(all, before + [|all|-1], kept + [all[|all|-1]])
  {}

  lemma FirstBelow(all: seq<Candidate>, i: nat)
    requires IsFirst(all, i)
    ensures i < |all|
  {}

  lemma DistinctIs(all: seq<Candidate>)
    ensures KeepsFirst(all, Distinct(all))
  {
    var at := DistinctKeepsFirst(all);
  }

  // ---------------------------------------------------------------- what search nominates

  /** A nomination: hit `hit` itself, or the later mention of a pair whose source has the hit's text. */
  datatype Slot = Slot(hit: nat, pair: Option<nat>)

  ghost predicate IsSlot(hits: seq<Candidate>, pairs: seq<Link>, s: Slot) {
    s.hit < |hits| &&
    (s.pair.Some? ==> s.pair.value < |pairs| && pairs[s.pair.value].source.hash == hits[s.hit].hash)
  }

  /** Each hit before its later mentions, those in the order of their pairs, and all before the next hit. */
  ghost predicate Before(a: Slot, b: Slot) {
    || a.hit < b.hit
    || (a.hit == b.hit && b.pair.Some? && (a.pair.None? || a.pair.value < b.pair.value))
  }

  ghost predicate InOrder(slots: seq<Slot>) {
    forall k, l :: 0 <= k < l < |slots| ==> Before(slots[k], slots[l])
  }

  function Named(hits: seq<Candidate>, pairs: seq<Link>, s: Slot): Candidate
    requires s.hit < |hits| && (s.pair.Some? ==> s.pair.value < |pairs|)
  {
    if s.pair.None? then hits[s.hit] else pairs[s.pair.value].linked
  }

  ghost predicate NamedBy(hits: seq<Candidate>, pairs: seq<Link>, slots: seq<Slot>, all: seq<Candidate>) {
    |all| == |slots| && forall k :: 0 <= k < |slots| ==>
        IsSlot(hits, pairs, slots[k]) && all[k] == Named(hits, pairs, slots[k])
  }

  /** All nominations, in order. */
  ghost predicate Nominations(hits: seq<Candidate>, pairs: seq<Link>, slots: seq<Slot>) {
    InOrder(slots) && forall s :: s in slots <==> IsSlot(hits, pairs, s)
  }

  /** The pairs of a text, as slots of a hit. */
  lemma {:induction false} LinkedSlots(hits: seq<Candidate>, pairs: seq<Link>, i: nat, n: nat)
    returns (slots: seq<Slot>)
    requires i < |hits| && n <= |pairs|
    ensures InOrder(slots) && NamedBy(hits, pairs, slots, LinkedTo(pairs[..n], hits[i].hash))
    ensures forall s :: s in slots <==> IsSlot(hits, pairs, s) && s.hit == i && s.pair.Some? && s.pair.value < n
  {
    if n == 0 {
      slots := [];
    } else {
      slots := LinkedSlots(hits, pairs, i, n - 1);
      assert pairs[..n][..n-1] == pairs[..n-1];
      if pairs[n-1].source.hash == hits[i].hash { slots := slots + [Slot(i, Some(n - 1))]; }
    }
  }

  lemma {:induction false} ExpandedSlots(hits: seq<Candidate>, pairs: seq<Link>, n: nat) returns (slots: seq<Slot>)
    requires n <= |hits|
    ensures InOrder(slots) && NamedBy(hits, pairs, slots, Expanded(hits[..n], pairs))
    ensures forall s :: s in slots <==> IsSlot(hits, pairs, s) && s.hit < n
  {
    if n == 0 {
      slots := [];
    } else {
      var init := ExpandedSlots(hits, pairs, n - 1);
      var linked := LinkedSlots(hits, pairs, n - 1, |pairs|);
      assert pairs[..|pairs|] == pairs;
      ExpandedNext(hits, pairs, n - 1);
      slots := init + ([Slot(n - 1, None)] + linked);
      SlotsJoin(hits, pairs, init, linked, n - 1, Expanded(hits[..n-1], pairs), LinkedTo(pairs, hits[n-1].hash));
    }
  }

  lemma NamedJoin(hits: seq<Candidate>, pairs: seq<Link>, init: seq<Slot>, linked: seq<Slot>, i: nat,
                  a: seq<Candidate>, b: seq<Candidate>)
    requires i < |hits| && NamedBy(hits, pairs, init, a) && NamedBy(hits, pairs, linked, b)
    ensures NamedBy(hits, pairs, init + ([Slot(i, None)] + linked), a + ([hits[i]] + b))
  {}

  lemma SlotsJoin(hits: seq<Candidate>, pairs: seq<Link>, init: seq<Slot>, linked: seq<Slot>, i: nat,
                  a: seq<Candidate>, b: seq<Candidate>)
    requires i < |hits| && InOrder(init) && InOrder(linked)
    requires NamedBy(hits, pairs, init, a) && NamedBy(hits, pairs, linked, b)
    requires forall s :: s in init <==> IsSlot(hits, pairs, s) && s.hit < i
    requires forall s :: s in linked <==> IsSlot(hits, pairs, s) && s.hit == i && s.pair.Some?
    ensures var slots := init + ([Slot(i, None)] + linked);
            && InOrder(slots) && NamedBy(hits, pairs, slots, a + ([hits[i]] + b))
            && forall s :: s in slots <==> IsSlot(hits, pairs, s) && s.hit <= i
  {
    var later := [Slot(i, None)] + linked;
    forall k | 0 <= k < |init| ensures init[k].hit < i { assert init[k] in init; }
    forall k | 0 <= k < |linked| ensures linked[k].hit == i && linked[k].pair.Some? { assert linked[k] in linked; }
    assert InOrder(later);
    hide InOrder;
    OrderJoins(init, later, i);
    NamedJoin(hits, pairs, init, linked, i, a, b);
    hide NamedBy, Named;
    forall s ensures s in init + later <==> IsSlot(hits, pairs, s) && s.hit <= i {
      if s.hit == i && s.pair.None? { assert s == later[0]; }
    }
  }

  lemma OrderJoins(a: seq<Slot>, b: seq<Slot>, i: nat)
    requires InOrder(a) && InOrder(b)
    requires (forall k :: 0 <= k < |a| ==> a[k].hit < i) && forall k :: 0 <= k < |b| ==> b[k].hit == i
    ensures InOrder(a + b)
  {}

  /** The lexical items are the nominations, each piece of a message once, by its first. */
  lemma LexicalIsNominated(hits: seq<Candidate>, pairs: seq<Link>) returns (slots: seq<Slot>, all: seq<Candidate>)
    ensures Nominations(hits, pairs, slots) && NamedBy(hits, pairs, slots, all)
    ensures KeepsFirst(all, Lexical(hits, pairs))
  {
    slots := ExpandedSlots(hits, pairs, |hits|);
    assert hits[..|hits|] == hits;
    all := Expanded(hits, pairs);
    DistinctIs(all);
    hide Expanded, Distinct, InOrder, NamedBy, IsSlot;
  }

  // ---------------------------------------------------------------- the ranking

  /** A tree candidate in the form it is ranked: as search found it, if search did. */
  ghost predicate IsPreferred(lexical: seq<Candidate>, c: Candidate, r: Candidate) {
    SameIdentity(r, c) && (r in lexical || (r == c && forall x :: x in lexical ==> !SameIdentity(x, c)))
  }

  ghost predicate ArePreferred(lexical: seq<Candidate>, tree: seq<Candidate>, preferred: seq<Candidate>) {
    |preferred| == |tree| && forall k :: 0 <= k < |tree| ==> IsPreferred(lexical, tree[k], preferred[k])
  }

  lemma PreferredOne(lexical: seq<Candidate>, c: Candidate)
    ensures IsPreferred(lexical, c, Retrieval.Find(lexical, KeyOf(c), c))
  {
    Retrieval.FindFacts(lexical, KeyOf(c), c);
    forall x | x in lexical && SameIdentity(x, c) ensures HasKey(lexical, KeyOf(c)) {
      var i :| 0 <= i < |lexical| && lexical[i] == x;
      assert KeyOf(lexical[i]) == KeyOf(c);
    }
  }

  lemma {:induction false} PreferredAre(lexical: seq<Candidate>, tree: seq<Candidate>)
    ensures ArePreferred(lexical, tree, Preferred(lexical, tree))
  {
    hide IsPreferred, Retrieval.Find;
    if tree != [] {
      PreferredAre(lexical, tree[..|tree|-1]);
      PreferredOne(lexical, tree[|tree|-1]);
    }
  }

  /** The lexical items up to the limit, then the tree candidates, each piece of a message once. */
  lemma RankedIs(hits: seq<Candidate>, pairs: seq<Link>, tree: seq<Candidate>, limit: nat)
    returns (front: seq<Candidate>, preferred: seq<Candidate>)
    ensures front <= Lexical(hits, pairs) && |front| <= limit && (|front| == limit || front == Lexical(hits, pairs))
    ensures ArePreferred(Lexical(hits, pairs), tree, preferred)
    ensures KeepsFirst(front + preferred, Ranked(hits, pairs, tree, limit))
  {
    var lexical := Lexical(hits, pairs);
    front, preferred := Upto(lexical, limit), Preferred(lexical, tree);
    PreferredAre(lexical, tree);
    DistinctIs(front + preferred);
    hide Lexical, Preferred, Distinct, KeepsFirst, ArePreferred;
  }

  // ---------------------------------------------------------------- what the budget takes, and how it is shown

  /** The rendered text of these items. */
  function TextOf(es: seq<Evidence>): string {
    Render(BlocksOf(es))
  }

  /** The entries at some positions, in order. */
  ghost predicate TakenAt(es: seq<Evidence>, at: seq<nat>, kept: seq<Evidence>) {
    |kept| == |at| && Rising(at) && forall k :: 0 <= k < |at| ==> at[k] < |es| && kept[k] == es[at[k]]
  }

  /** The item is taken exactly if its text still fits beside the `n` items taken before it. */
  ghost predicate TakenIfFits(es: seq<Evidence>, at: seq<nat>, kept: seq<Evidence>, most: nat, i: nat, n: nat)
    requires i < |es| && n <= |at| == |kept|
  {
    && (forall k :: 0 <= k < n ==> at[k] < i) && (forall k :: n <= k < |at| ==> i <= at[k])
    && (i in at <==> |TextOf(kept[..n] + [es[i]])| <= most)
  }

  ghost predicate Decides(es: seq<Evidence>, at: seq<nat>, kept: seq<Evidence>, most: nat, i: nat)
    requires i < |es|
  {
    exists n :: 0 <= n <= |at| == |kept| && TakenIfFits(es, at, kept, most, i, n)
  }

  /** Every item is taken in its turn exactly if it fits beside those taken before it. */
  ghost predicate TakenInTurn(es: seq<Evidence>, at: seq<nat>, kept: seq<Evidence>, most: nat) {
    TakenAt(es, at, kept) && forall i :: 0 <= i < |es| ==> Decides(es, at, kept, most, i)
  }

  lemma {:induction false} BoundedInTurn(es: seq<Evidence>, most: nat) returns (at: seq<nat>)
    ensures TakenInTurn(es, at, Bounded(es, most), most)
  {
    hide *;
    BoundedUnfolds(es, most);
    if es == [] {
      at := [];
      NothingTaken(most);
    } else {
      var n := |es| - 1;
      var before := BoundedInTurn(es[..n], most);
      var kept := Bounded(es[..n], most);
      at := if FitsBudget(kept + [es[n]], most) then before + [n] else before;
      OneMoreTurn(es, before, kept, most);
    }
  }

  lemma BoundedUnfolds(es: seq<Evidence>, most: nat)
    ensures es == [] ==> Bounded(es, most) == []
    ensures es != [] ==>
              var kept, last := Bounded(es[..|es|-1], most), es[|es|-1];
              Bounded(es, most) == if FitsBudget(kept + [last], most) then kept + [last] else kept
  {
    hide FitsBudget;
  }

  lemma NothingTaken(most: nat)
    ensures TakenInTurn([], [], [], most)
  {}

  lemma OneMoreTurn(es: seq<Evidence>, before: seq<nat>, kept: seq<Evidence>, most: nat)
    requires es != [] && TakenInTurn(es[..|es|-1], before, kept, most)
    ensures var n := |es| - 1;
            if FitsBudget(kept + [es[n]], most) then TakenInTurn(es, before + [n], kept + [es[n]], most)
            else TakenInTurn(es, before, kept, most)
  {
    var n := |es| - 1;
    hide Decides, FitsBudget;
    TakenBelow(es[..n], before, kept);
    LastDecided(es, before, kept, most);
    forall i | 0 <= i < n
      ensures Decides(es, before, kept, most, i) && Decides(es, before + [n], kept + [es[n]], most, i)
    {
      DecidedStill(es, before, kept, most, i);
    }
    TakenMore(es, before, kept);
    hide TakenAt;
  }

  lemma TakenMore(es: seq<Evidence>, before: seq<nat>, kept: seq<Evidence>)
    requires es != [] && TakenAt(es[..|es|-1], before, kept)
    ensures TakenAt(es, before, kept) && TakenAt(es, before + [|es|-1], kept + [es[|es|-1]])
  {}

  lemma TakenBelow(es: seq<Evidence>, at: seq<nat>, kept: seq<Evidence>)
    requires TakenAt(es, at, kept)
    ensures forall k :: 0 <= k < |at| ==> at[k] < |es|
  {}

  lemma DecidedStill(es: seq<Evidence>, before: seq<nat>, kept: seq<Evidence>, most: nat, i: nat)
    requires i < |es| - 1 && |kept| == |before| && Decides(es[..|es|-1], before, kept, most, i)
    ensures Decides(es, before, kept, most, i)
    ensures Decides(es, before + [|es|-1], kept + [es[|es|-1]], most, i)
  {
    hide Render;
    var n :| 0 <= n <= |before| && TakenIfFits(es[..|es|-1], before, kept, most, i, n);
    assert es[..|es|-1][i] == es[i];
    assert TakenIfFits(es, before, kept, most, i, n);
    assert (kept + [es[|es|-1]])[..n] == kept[..n];
    assert TakenIfFits(es, before + [|es|-1], kept + [es[|es|-1]], most, i, n);
  }

  lemma LastDecided(es: seq<Evidence>, before: seq<nat>, kept: seq<Evidence>, most: nat)
    requires es != [] && |kept| == |before| && forall k :: 0 <= k < |before| ==> before[k] < |es| - 1
    ensures var n := |es| - 1;
            if FitsBudget(kept + [es[n]], most) then Decides(es, before + [n], kept + [es[n]], most, n)
            else Decides(es, before, kept, most, n)
  {
    var n := |es| - 1;
    hide Render;
    assert kept[..|before|] == kept && (kept + [es[n]])[..|before|] == kept;
    if FitsBudget(kept + [es[n]], most) {
      assert TakenIfFits(es, before + [n], kept + [es[n]], most, n, |before|);
    } else {
      assert TakenIfFits(es, before, kept, most, n, |before|);
    }
  }

  /** By number, and items of one number by rank. */
  ghost predicate InConversation(es: seq<Evidence>) {
    forall i, j :: 0 <= i < j < |es| ==> Sooner(es[i], es[j])
  }

  ghost predicate Sooner(x: Evidence, y: Evidence) {
    x.candidate.seqNo < y.candidate.seqNo || (x.candidate.seqNo == y.candidate.seqNo && x.rank < y.rank)
  }

  ghost predicate RankedUp(es: seq<Evidence>) {
    forall i, j :: 0 <= i < j < |es| ==> es[i].rank < es[j].rank
  }

  lemma InConversationCons(e: Evidence, es: seq<Evidence>)
    ensures InConversation([e] + es) <==> InConversation(es) && forall x :: x in es ==> Sooner(e, x)
  {
    var all := [e] + es;
    if InConversation(all) {
      forall x | x in es ensures Sooner(e, x) {
        var j :| 0 <= j < |es| && es[j] == x;
        assert Sooner(all[0], all[j+1]);
      }
      forall i, j | 0 <= i < j < |es| ensures Sooner(es[i], es[j]) { assert Sooner(all[i+1], all[j+1]); }
    }
    if InConversation(es) && forall x :: x in es ==> Sooner(e, x) {
      forall i, j | 0 <= i < j < |all| ensures Sooner(all[i], all[j]) {
        if i == 0 { assert all[j] in es; } else { assert Sooner(es[i-1], es[j-1]); }
      }
    }
  }

  lemma {:induction false} InsertStays(e: Evidence, es: seq<Evidence>)
    requires InConversation(es) && forall x :: x in es ==> e.rank < x.rank
    ensures InConversation(InsertBy(BySeq(), e, es))
  {
    if es == [] {
    } else {
      assert es == [es[0]] + es[1..];
      InConversationCons(es[0], es[1..]);
      if BySeq()(e) > BySeq()(es[0]) {
        InsertStays(e, es[1..]);
        var r := InsertBy(BySeq(), e, es[1..]);
        InConversationCons(es[0], r);
        hide InConversation, InsertBy;
        forall x | x in r ensures Sooner(es[0], x) { InsertedIn(e, es[1..], x); }
      } else {
        InConversationCons(e, es);
        hide InConversation;
        forall x | x in es ensures Sooner(e, x) {}
      }
    }
  }

  lemma {:induction false} InsertedIn(e: Evidence, es: seq<Evidence>, x: Evidence)
    requires x in InsertBy(BySeq(), e, es)
    ensures x == e || x in es
  {
    if es != [] && BySeq()(e) > BySeq()(es[0]) && x != es[0] { InsertedIn(e, es[1..], x); }
  }

  lemma {:induction false} SortStays(es: seq<Evidence>)
    requires RankedUp(es)
    ensures InConversation(SortBy(BySeq(), es))
  {
    if es != [] {
      SortStays(es[1..]);
      SortByFacts(BySeq(), es[1..]);
      forall x | x in es[1..] ensures es[0].rank < x.rank {
        var j :| 0 <= j < |es[1..]| && es[1..][j] == x;
        assert es[j+1] == x;
      }
      hide InConversation;
      InsertStays(es[0], SortBy(BySeq(), es[1..]));
    }
  }

  /** Ranks from one on, in priority order. */
  ghost predicate AreNumbered(ranked: seq<Candidate>, es: seq<Evidence>) {
    |es| == |ranked| && forall i :: 0 <= i < |es| ==> es[i].rank == i + 1 && es[i].candidate == ranked[i]
  }

  /**
   * The evidence is what the budget takes of the numbered ranking, one item after another while the rendered
   * text fits, shown in conversation order.
   */
  lemma EvidenceIs(hits: seq<Candidate>, pairs: seq<Link>, tree: seq<Candidate>, limit: nat, most: nat)
    returns (numbered: seq<Evidence>, at: seq<nat>, kept: seq<Evidence>)
    ensures AreNumbered(Ranked(hits, pairs, tree, limit), numbered) && TakenInTurn(numbered, at, kept, most)
    ensures var es := Assembled(hits, pairs, tree, limit, most); multiset(es) == multiset(kept) && InConversation(es)
  {
    var ranked := Ranked(hits, pairs, tree, limit);
    numbered, kept := Numbered(ranked), Bounded(Numbered(ranked), most);
    AreNumberedOk(ranked);
    AssembledIs(hits, pairs, tree, limit, most);
    hide *;
    at := BoundedInTurn(numbered, most);
    TurnsTake(numbered, at, kept, most);
    TakenRise(numbered, at, kept);
    SortStays(kept);
    SortByFacts(BySeq(), kept);
  }

  lemma AreNumberedOk(ranked: seq<Candidate>)
    ensures AreNumbered(ranked, Numbered(ranked)) && RankedUp(Numbered(ranked))
  {}

  lemma AssembledIs(hits: seq<Candidate>, pairs: seq<Link>, tree: seq<Candidate>, limit: nat, most: nat)
    ensures Assembled(hits, pairs, tree, limit, most) ==
            SortBy(BySeq(), Bounded(Numbered(Ranked(hits, pairs, tree, limit)), most))
  {}

  lemma TurnsTake(es: seq<Evidence>, at: seq<nat>, kept: seq<Evidence>, most: nat)
    requires TakenInTurn(es, at, kept, most)
    ensures TakenAt(es, at, kept)
  {}

  lemma TakenRise(es: seq<Evidence>, at: seq<nat>, kept: seq<Evidence>)
    requires TakenAt(es, at, kept) && RankedUp(es)
    ensures RankedUp(kept)
  {}

  // ---------------------------------------------------------------- which links are handed on

  ghost predicate IsReturned(es: seq<Evidence>, k: CandidateKey) {
    exists e :: e in es && HasIdentity(e.candidate, k)
  }

  /** The later mention of a pair, whose source text a hit named `source` has. */
  ghost predicate IsLinkOf(hits: seq<Candidate>, pairs: seq<Link>, source: CandidateKey, s: Slot) {
    IsSlot(hits, pairs, s) && s.pair.Some? && HasIdentity(hits[s.hit], source)
  }

  ghost predicate IsLinkReturned(hits: seq<Candidate>, pairs: seq<Link>, es: seq<Evidence>, source: CandidateKey,
                                 s: Slot) {
    IsLinkOf(hits, pairs, source, s) && IsReturned(es, KeyOf(pairs[s.pair.value].linked))
  }

  /** The keys are those of the later mentions at these slots. */
  ghost predicate KeysAt(hits: seq<Candidate>, pairs: seq<Link>, slots: seq<Slot>, keys: seq<CandidateKey>) {
    |keys| == |slots| && forall k :: 0 <= k < |slots| ==>
        && IsSlot(hits, pairs, slots[k]) && slots[k].pair.Some?
        && HasIdentity(pairs[slots[k].pair.value].linked, keys[k])
  }

  lemma {:induction false} LinkedKeysSlots(hits: seq<Candidate>, pairs: seq<Link>, source: CandidateKey, n: nat)
    returns (slots: seq<Slot>)
    requires n <= |hits|
    ensures InOrder(slots) && KeysAt(hits, pairs, slots, LinkedKeys(hits[..n], pairs, source))
    ensures forall s :: s in slots <==> IsLinkOf(hits, pairs, source, s) && s.hit < n
  {
    if n == 0 {
      slots := [];
    } else {
      var init := LinkedKeysSlots(hits, pairs, source, n - 1);
      var linked := LinkedSlots(hits, pairs, n - 1, |pairs|);
      assert pairs[..|pairs|] == pairs && hits[..n][..n-1] == hits[..n-1];
      slots := if KeyOf(hits[n-1]) == source then init + linked else init;
      LinkedKeysCases(hits[..n], pairs, source);
      LinksJoin(hits, pairs, source, init, linked, n - 1, LinkedKeys(hits[..n-1], pairs, source),
                LinkedTo(pairs, hits[n-1].hash));
    }
  }

  lemma LinkedKeysCases(hits: seq<Candidate>, pairs: seq<Link>, source: CandidateKey)
    requires hits != []
    ensures var init, last := hits[..|hits|-1], hits[|hits|-1];
            LinkedKeys(hits, pairs, source) ==
              if KeyOf(last) == source then LinkedKeys(init, pairs, source) + Keys(LinkedTo(pairs, last.hash))
              else LinkedKeys(init, pairs, source)
  {
    hide LinkedTo, Keys;
  }

  lemma LinksJoin(hits: seq<Candidate>, pairs: seq<Link>, source: CandidateKey, init: seq<Slot>, linked: seq<Slot>,
                  i: nat, a: seq<CandidateKey>, b: seq<Candidate>)
    requires i < |hits| && InOrder(init) && InOrder(linked)
    requires KeysAt(hits, pairs, init, a) && NamedBy(hits, pairs, linked, b)
    requires forall s :: s in init <==> IsLinkOf(hits, pairs, source, s) && s.hit < i
    requires forall s :: s in linked <==> IsSlot(hits, pairs, s) && s.hit == i && s.pair.Some? && s.pair.value < |pairs|
    ensures var more := KeyOf(hits[i]) == source;
            && InOrder(if more then init + linked else init)
            && KeysAt(hits, pairs, if more then init + linked else init, if more then a + Keys(b) else a)
            && forall s :: s in (if more then init + linked else init) <==>
                 IsLinkOf(hits, pairs, source, s) && s.hit <= i
  {
    forall k | 0 <= k < |init| ensures init[k].hit < i { assert init[k] in init; }
    forall k | 0 <= k < |linked| ensures linked[k].hit == i && linked[k].pair.Some? { assert linked[k] in linked; }
    KeysJoin(hits, pairs, init, linked, a, b);
    LinkMembers(hits, pairs, source, init, linked, i);
    hide *;
    OrderJoins(init, linked, i);
  }

  lemma KeysJoin(hits: seq<Candidate>, pairs: seq<Link>, init: seq<Slot>, linked: seq<Slot>, a: seq<CandidateKey>,
                 b: seq<Candidate>)
    requires KeysAt(hits, pairs, init, a) && NamedBy(hits, pairs, linked, b)
    requires forall k :: 0 <= k < |linked| ==> linked[k].pair.Some?
    ensures KeysAt(hits, pairs, init + linked, a + Keys(b))
  {
    var slots, keys := init + linked, a + Keys(b);
    assert |Keys(b)| == |b|;
    forall k | 0 <= k < |slots|
      ensures && IsSlot(hits, pairs, slots[k]) && slots[k].pair.Some?
              && HasIdentity(pairs[slots[k].pair.value].linked, keys[k])
    {
      if k >= |init| { assert b[k - |init|] == Named(hits, pairs, linked[k - |init|]); }
    }
  }

  lemma LinkMembers(hits: seq<Candidate>, pairs: seq<Link>, source: CandidateKey, init: seq<Slot>, linked: seq<Slot>,
                    i: nat)
    requires i < |hits|
    requires forall s :: s in init <==> IsLinkOf(hits, pairs, source, s) && s.hit < i
    requires forall s :: s in linked <==> IsSlot(hits, pairs, s) && s.hit == i && s.pair.Some? && s.pair.value < |pairs|
    ensures forall s :: s in (if KeyOf(hits[i]) == source then init + linked else init) <==>
                        IsLinkOf(hits, pairs, source, s) && s.hit <= i
  {
    assert KeyOf(hits[i]) == source <==> HasIdentity(hits[i], source);
    forall s ensures s in linked ==> s.hit == i {}
    forall s ensures IsLinkOf(hits, pairs, source, s) && s.hit == i <==> s in linked && KeyOf(hits[i]) == source {}
  }

  lemma {:induction false} KeptSlots(hits: seq<Candidate>, pairs: seq<Link>, slots: seq<Slot>, keys: seq<CandidateKey>,
                                     returned: set<CandidateKey>)
    returns (left: seq<Slot>)
    requires InOrder(slots) && KeysAt(hits, pairs, slots, keys)
    ensures InOrder(left) && KeysAt(hits, pairs, left, Kept(keys, returned))
    ensures forall s :: s in left <==> s in slots && IsSlot(hits, pairs, s) && s.pair.Some? &&
                                       KeyOf(pairs[s.pair.value].linked) in returned
    decreases |slots|
  {
    if slots == [] {
      left := [];
    } else {
      var n := |slots| - 1;
      assert slots == slots[..n] + [slots[n]];
      assert InOrder(slots[..n] + [slots[n]]);
      left := KeptSlots(hits, pairs, slots[..n], keys[..n], returned);
      assert forall k :: 0 <= k < |left| ==> left[k] in left;
      LastAfter(slots[..n], slots[n]);
      if keys[n] in returned { left := left + [slots[n]]; }
      hide IsSlot, Before;
    }
  }

  lemma LastAfter(init: seq<Slot>, last: Slot)
    requires InOrder(init + [last])
    ensures forall s :: s in init ==> Before(s, last)
  {
    hide Before;
    var slots := init + [last];
    forall s | s in init ensures Before(s, last) {
      var k :| 0 <= k < |init| && init[k] == s;
      assert Before(slots[k], slots[|init|]);
    }
  }

  /** Where the links of a returned source come from: one for each later mention returned, in order. */
  ghost predicate LinksOf(hits: seq<Candidate>, pairs: seq<Link>, es: seq<Evidence>, source: CandidateKey,
                          slots: seq<Slot>, keys: seq<CandidateKey>) {
    && InOrder(slots) && KeysAt(hits, pairs, slots, keys)
    && forall s :: s in slots <==> IsLinkReturned(hits, pairs, es, source, s)
  }

  lemma ReturnedIs(es: seq<Evidence>, k: CandidateKey)
    ensures k in Returned(es) <==> IsReturned(es, k)
  {
    if IsReturned(es, k) {
      var e :| e in es && HasIdentity(e.candidate, k);
      assert KeyOf(e.candidate) == k;
    }
  }

  /**
   * A source has links exactly if it was returned and so was some later mention of a pair whose source has the
   * text of a hit of that name; they are all of these mentions, in order.
   */
  lemma LinksExactly(hits: seq<Candidate>, pairs: seq<Link>, es: seq<Evidence>,
                     links: map<CandidateKey, seq<CandidateKey>>, source: CandidateKey)
    returns (slots: seq<Slot>)
    requires LinksReturned(hits, pairs, es, links)
    ensures forall s :: s in slots <==> IsLinkReturned(hits, pairs, es, source, s)
    ensures source in links <==> IsReturned(es, source) && exists s :: IsLinkReturned(hits, pairs, es, source, s)
    ensures source in links ==> LinksOf(hits, pairs, es, source, slots, links[source])
  {
    var all := LinkedKeysSlots(hits, pairs, source, |hits|);
    assert hits[..|hits|] == hits;
    var keys := LinkedKeys(hits, pairs, source);
    slots := KeptSlots(hits, pairs, all, keys, Returned(es));
    ReturnedIs(es, source);
    forall s ensures s in slots <==> IsLinkReturned(hits, pairs, es, source, s) {
      if IsLinkOf(hits, pairs, source, s) { ReturnedIs(es, KeyOf(pairs[s.pair.value].linked)); }
    }
    assert source in links <==> source in Returned(es) && Kept(keys, Returned(es)) != [];
    hide LinkedKeys, Kept, Returned, InOrder, IsLinkReturned, IsReturned;
    assert |slots| == |Kept(keys, Returned(es))|;
    if slots != [] { assert slots[0] in slots; }
  }
}
