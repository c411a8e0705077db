/** Packing candidates into a bounded context, with linked restatements (packages/python/src/cci/memory.py). */
module Packing {
  import opened Wrappers
  import opened Sequences
  import opened Relevance
  import opened Rendering

  datatype ItemKey = ItemKey(messageId: string, pointer: string)

  datatype Item = Item(messageId: string, seqNo: nat, pointer: string, excerpt: string)

  datatype TokenLimit = TokenLimit(most: nat, count: string -> nat)

  datatype Budget = Budget(messages: nat, chars: nat, tokens: Option<TokenLimit>)

  /** How excerpts are cut: around the query terms, to a window. */
  datatype Cutter = Cutter(lex: Lexicon, terms: seq<string>, window: nat)

  type Links = map<ItemKey, seq<ItemKey>>

  type Unique = map<ItemKey, Item>

  datatype Context = Context(text: string, items: seq<Item>, omitted: int, truncated: nat)

  function KeyOf(i: Item): ItemKey {
    ItemKey(i.messageId, i.pointer)
  }

  function Cut(c: Cutter, i: Item): Item {
    i.(excerpt := Excerpt(c.lex, i.excerpt, c.terms, c.window))
  }

  function Block(i: Item): EvidenceBlock {
    EvidenceBlock(i.messageId, i.pointer, i.excerpt)
  }

  function Blocks(items: seq<Item>): (r: seq<EvidenceBlock>)
    ensures |r| == |items|
  {
    seq(|items|, j requires 0 <= j < |items| => Block(items[j]))
  }

  function BySeq(): Item -> int {
    (i: Item) => i.seqNo
  }

  /** The items as shown: in conversation order. */
  function Shown(items: seq<Item>): string {
    Render(Blocks(SortBy(BySeq(), items)))
  }

  predicate Allowed(b: Budget, items: seq<Item>) {
    && |items| <= b.messages && |Shown(items)| <= b.chars
    && (b.tokens.Some? ==> b.tokens.value.count(Shown(items)) <= b.tokens.value.most)
  }

  // ---------------------------------------------------------------- how long a selection is

  lemma {:induction false} BlocksMultiset(a: seq<Item>, b: seq<Item>)
    requires multiset(a) == multiset(b)
    ensures multiset(Blocks(a)) == multiset(Blocks(b))
    decreases |a|
  {
    hide *;
    if a == [] {
      assert |multiset(b)| == |b| && |multiset(a)| == 0;
      assert b == [];
    } else {
      var j := Position(b, a[0]);
      TakeOut(a, 0);
      TakeOut(b, j);
      BlocksWithout(a, 0);
      BlocksWithout(b, j);
      BlocksMultiset(RemoveAt(a, 0), RemoveAt(b, j));
    }
  }

  lemma BlocksWithout(items: seq<Item>, j: nat)
    requires j < |items|
    ensures multiset(Blocks(items)) == multiset(Blocks(RemoveAt(items, j))) + multiset{Block(items[j])}
  {
    TakeOut(Blocks(items), j);
    assert Blocks(items)[..j] + Blocks(items)[j+1..] == Blocks(RemoveAt(items, j));
    assert Blocks(items)[j] in multiset(Blocks(items));
  }

  /** The characters a selection takes do not depend on its order. */
  function Weight(items: seq<Item>): nat {
    Cost(Blocks(items))
  }

  lemma WeightConcat(a: seq<Item>, b: seq<Item>)
    ensures Weight(a + b) == Weight(a) + Weight(b)
  {
    assert Blocks(a + b) == Blocks(a) + Blocks(b);
    CostConcat(Blocks(a), Blocks(b));
  }

  lemma WeightOfMultiset(a: seq<Item>, b: seq<Item>)
    requires multiset(a) == multiset(b)
    ensures Weight(a) == Weight(b) && |a| == |b|
  {
    BlocksMultiset(a, b);
    CostOfMultiset(Blocks(a), Blocks(b));
    SameMultiset(a, b);
  }

  lemma ShownLength(items: seq<Item>)
    ensures items != [] ==> |Shown(items)| + 1 == Weight(items)
    ensures items == [] ==> |Shown(items)| == 0
  {
    SortByFacts(BySeq(), items);
    WeightOfMultiset(SortBy(BySeq(), items), items);
    RenderLength(Blocks(SortBy(BySeq(), items)));
  }

  /** There is no token limit, or a counter that never charges less for more. */
  ghost predicate Growing(b: Budget) {
    b.tokens.Some? ==>
      forall some: seq<Item>, all: seq<Item> :: multiset(some) <= multiset(all) ==>
        b.tokens.value.count(Shown(some)) <= b.tokens.value.count(Shown(all))
  }

  predicate OverTokens(b: Budget, items: seq<Item>) {
    b.tokens.Some? && b.tokens.value.count(Shown(items)) > b.tokens.value.most
  }

  /** What does not fit still does not fit beside more. */
  lemma OverGrows(b: Budget, items: seq<Item>, all: seq<Item>, rest: seq<Item>)
    requires Growing(b) && !Allowed(b, items) && multiset(all) == multiset(items + rest)
    ensures !Allowed(b, all)
  {
    assert multiset(items + rest) == multiset(items) + multiset(rest);
    assert OverTokens(b, items) ==> OverTokens(b, all);
    hide *;
    WeightOfMultiset(all, items + rest);
    WeightConcat(items, rest);
    AllowedByWeight(b, items);
    AllowedByWeight(b, all);
  }

  lemma AllowedByWeight(b: Budget, items: seq<Item>)
    ensures Allowed(b, items) <==>
            |items| <= b.messages && (items != [] ==> Weight(items) <= b.chars + 1) && !OverTokens(b, items)
  {
    ShownLength(items);
    hide Shown;
  }

  // ---------------------------------------------------------------- links

  /** The newer statements available for a key. */
  function Available(keys: seq<ItemKey>, unique: Unique, key: ItemKey): seq<ItemKey> {
    if keys == [] then []
    else Available(keys[..|keys|-1], unique, key) +
         (var k := keys[|keys|-1]; if k in unique && k != key then [k] else [])
  }

  function Newer(links: Links, unique: Unique, key: ItemKey): seq<ItemKey> {
    if key in links then Available(links[key], unique, key) else []
  }

  lemma {:induction false} AvailableFacts(keys: seq<ItemKey>, unique: Unique, key: ItemKey)
    ensures forall k :: k in Available(keys, unique, key) <==> k in keys && k in unique && k != key
    ensures NoDup(keys) ==> NoDup(Available(keys, unique, key))
  {
    if keys != [] {
      var init, last := keys[..|keys|-1], keys[|keys|-1];
      AvailableFacts(init, unique, key);
      assert keys == init + [last];
      if NoDup(keys) {
        assert NoDup(init) && last !in init;
        var r := Available(init, unique, key);
        assert NoDup(r) && last !in r;
        forall i, j | 0 <= i < j < |r + [last]| ensures (r + [last])[i] != (r + [last])[j] {
          if j == |r| { assert r[i] in r; }
        }
      }
    }
  }

  lemma NewerFacts(links: Links, unique: Unique, key: ItemKey)
    ensures forall k :: k in Newer(links, unique, key) ==> k in unique && k != key
  {
    if key in links { AvailableFacts(links[key], unique, key); }
  }

  /** No candidate is linked to the same newer statement twice. */
  ghost predicate NoRepeats(links: Links, unique: Unique) {
    forall k :: k in unique ==> NoDup(Newer(links, unique, k))
  }

  /** A list that repeats nothing repeats no available statement. */
  lemma DistinctLinks(links: Links, unique: Unique)
    requires forall k :: k in links ==> NoDup(links[k])
    ensures NoRepeats(links, unique)
  {
    forall k | k in unique ensures NoDup(Newer(links, unique, k)) {
      if k in links { AvailableFacts(links[k], unique, k); }
    }
  }

  /** A newer statement has no newer one. */
  ghost predicate OneLevel(links: Links, unique: Unique) {
    forall k, t :: k in unique && t in Newer(links, unique, k) ==> Newer(links, unique, t) == []
  }

  // ---------------------------------------------------------------- the selection

  predicate Known(unique: Unique, keys: seq<ItemKey>) {
    forall k :: k in keys ==> k in unique
  }

  /** Known keys neither considered nor picked yet. */
  ghost predicate Unused(unique: Unique, considered: set<ItemKey>, picks: seq<ItemKey>, keys: seq<ItemKey>) {
    forall k :: k in keys ==> k in unique && k !in considered && k !in picks
  }

  ghost predicate Among(keys: seq<ItemKey>, all: seq<ItemKey>) {
    forall k :: k in keys ==> k in all
  }

  function Cuts(unique: Unique, c: Cutter, keys: seq<ItemKey>): (r: seq<Item>)
    requires Known(unique, keys)
    ensures |r| == |keys|
  {
    seq(|keys|, j requires 0 <= j < |keys| => assert keys[j] in keys; Cut(c, unique[keys[j]]))
  }

  ghost predicate Keyed(unique: Unique) {
    forall k :: k in unique ==> KeyOf(unique[k]) == k
  }

  function Shorter(unique: Unique, c: Cutter, keys: seq<ItemKey>): nat
    requires Known(unique, keys)
  {
    if keys == [] then 0
    else
      var k := keys[|keys|-1];
      Shorter(unique, c, keys[..|keys|-1]) + (if |Cut(c, unique[k]).excerpt| < |unique[k].excerpt| then 1 else 0)
  }

  /** A selection of known keys, within the budget, with its excerpts cut and its truncations counted. */
  ghost predicate Selected(unique: Unique, c: Cutter, b: Budget, picks: seq<ItemKey>, selected: seq<Item>,
                           truncated: nat) {
    && Known(unique, picks)
    && selected == Cuts(unique, c, picks) && truncated == Shorter(unique, c, picks)
    && (selected != [] ==> Allowed(b, selected))
  }

  lemma NoDupConcat(a: seq<ItemKey>, b: seq<ItemKey>)
    requires NoDup(a) && NoDup(b) && forall k :: k in b ==> k !in a
    ensures NoDup(a + b)
  {
    var s := a + b;
    forall i, j | 0 <= i < j < |s| ensures s[i] != s[j] {
      if i < |a| <= j {
        assert s[i] in a && s[j] in b;
      }
    }
  }

  lemma {:induction false} ShorterConcat(unique: Unique, c: Cutter, a: seq<ItemKey>, b: seq<ItemKey>)
    requires Known(unique, a) && Known(unique, b)
    ensures Shorter(unique, c, a + b) == Shorter(unique, c, a) + Shorter(unique, c, b)
  {
    hide Cut;
    if b == [] {
      assert a + b == a;
    } else {
      ShorterConcat(unique, c, a, b[..|b|-1]);
      assert (a + b)[..|a + b|-1] == a + b[..|b|-1];
    }
  }

  /** The keys may be added to the picks, all together. */
  predicate FitsWith(unique: Unique, c: Cutter, b: Budget, picks: seq<ItemKey>, keys: seq<ItemKey>) {
    Known(unique, picks) && Known(unique, keys) && Allowed(b, Cuts(unique, c, picks) + Cuts(unique, c, keys))
  }

  lemma FitsWithIs(unique: Unique, c: Cutter, b: Budget, picks: seq<ItemKey>, keys: seq<ItemKey>)
    requires Known(unique, picks) && Known(unique, keys)
    ensures var text := Shown(Cuts(unique, c, picks) + Cuts(unique, c, keys));
            FitsWith(unique, c, b, picks, keys) <==>
              |picks| + |keys| <= b.messages && |text| <= b.chars &&
              (b.tokens.Some? ==> b.tokens.value.count(text) <= b.tokens.value.most)
  {
    hide Shown, Cut;
  }

  /** Keys that may not be added are over a limit beside the picks. */
  lemma NotFitting(unique: Unique, c: Cutter, b: Budget, picks: seq<ItemKey>, keys: seq<ItemKey>)
    requires Known(unique, picks) && Known(unique, keys) && !FitsWith(unique, c, b, picks, keys)
    ensures !Allowed(b, Cuts(unique, c, picks) + Cuts(unique, c, keys))
  {
    hide Shown, Cuts;
  }

  /** One admission: all the keys at once, or none of them. */
  method Admit(unique: Unique, c: Cutter, b: Budget, keys: seq<ItemKey>, selected: seq<Item>, truncated: nat,
               ghost picks: seq<ItemKey>)
    returns (ok: bool, selected2: seq<Item>, truncated2: nat)
    requires Selected(unique, c, b, picks, selected, truncated) && keys != [] && Known(unique, keys)
    ensures ok ==> Selected(unique, c, b, picks + keys, selected2, truncated2)
    ensures !ok ==> selected2 == selected && truncated2 == truncated
    ensures ok <==> FitsWith(unique, c, b, picks, keys)
  {
    SelectedParts(unique, c, b, picks, selected, truncated);
    FitsWithIs(unique, c, b, picks, keys);
    hide *;
    var bounded, shorter := CutAll(unique, c, keys);
    var text := Shown(selected + bounded);
    if |selected| + |bounded| > b.messages || |text| > b.chars
       || (b.tokens.Some? && b.tokens.value.count(text) > b.tokens.value.most) {
      return false, selected, truncated;
    }
    ok, selected2, truncated2 := true, selected + bounded, truncated + shorter;
    ShorterConcat(unique, c, picks, keys);
    CutsConcat(unique, c, picks, keys);
    SelectedWhole(unique, c, b, picks + keys, selected2, truncated2);
  }

  /** The excerpts of a group, and how many of them lost text. */
  method CutAll(unique: Unique, c: Cutter, keys: seq<ItemKey>) returns (bounded: seq<Item>, shorter: nat)
    requires Known(unique, keys)
    ensures bounded == Cuts(unique, c, keys) && shorter == Shorter(unique, c, keys)
  {
    hide Cut;
    bounded, shorter := [], 0;
    for i := 0 to |keys|
      invariant Known(unique, keys[..i])
      invariant bounded == Cuts(unique, c, keys[..i]) && shorter == Shorter(unique, c, keys[..i])
    {
      assert keys[i] in keys && keys[..i+1][..i] == keys[..i];
      var full := unique[keys[i]];
      var part := Cut(c, full);
      bounded := bounded + [part];
      shorter := shorter + if |part.excerpt| < |full.excerpt| then 1 else 0;
    }
    assert keys[..|keys|] == keys;
  }

  lemma SelectedParts(unique: Unique, c: Cutter, b: Budget, picks: seq<ItemKey>, selected: seq<Item>, truncated: nat)
    requires Selected(unique, c, b, picks, selected, truncated)
    ensures Known(unique, picks)
    ensures selected == Cuts(unique, c, picks) && truncated == Shorter(unique, c, picks)
    ensures selected != [] ==> Allowed(b, selected)
  {
    hide Allowed;
  }

  lemma SelectedWhole(unique: Unique, c: Cutter, b: Budget, picks: seq<ItemKey>, selected: seq<Item>, truncated: nat)
    requires Known(unique, picks)
    requires selected == Cuts(unique, c, picks) && truncated == Shorter(unique, c, picks)
    requires |selected| <= b.messages && |Shown(selected)| <= b.chars
    requires b.tokens.Some? ==> b.tokens.value.count(Shown(selected)) <= b.tokens.value.most
    ensures Selected(unique, c, b, picks, selected, truncated)
  {
    hide Shown;
  }

  // ---------------------------------------------------------------- why something was left out

  /** Leaving `k` out is justified: a newer statement of it was left out, or it does not fit beside the picks. */
  ghost predicate Justified(links: Links, unique: Unique, c: Cutter, b: Budget, picks: seq<ItemKey>,
                            considered: set<ItemKey>, k: ItemKey)
  {
    || (exists n :: n in Newer(links, unique, k) && n in considered && n !in picks)
    || (k in unique && Known(unique, picks) && !Allowed(b, Cuts(unique, c, picks) + [Cut(c, unique[k])]))
  }

  ghost predicate AllJustified(links: Links, unique: Unique, c: Cutter, b: Budget, picks: seq<ItemKey>,
                               considered: set<ItemKey>) {
    forall k :: k in considered && k !in picks ==> Justified(links, unique, c, b, picks, considered, k)
  }

  /** No pick is shown without every available newer statement of it. */
  ghost predicate Protected(links: Links, unique: Unique, picks: seq<ItemKey>) {
    forall k, n :: k in picks && n in Newer(links, unique, k) ==> n in picks
  }

  lemma OverMore(unique: Unique, c: Cutter, b: Budget, picks: seq<ItemKey>, more: seq<ItemKey>, k: ItemKey)
    requires Growing(b)
    requires Known(unique, picks) && Known(unique, more) && k in unique
    requires !Allowed(b, Cuts(unique, c, picks) + [Cut(c, unique[k])])
    ensures !Allowed(b, Cuts(unique, c, picks + more) + [Cut(c, unique[k])])
  {
    var x := Cut(c, unique[k]);
    hide *;
    var older, newer := Cuts(unique, c, picks), Cuts(unique, c, more);
    CutsConcat(unique, c, picks, more);
    OverGrows(b, older + [x], older + newer + [x], newer);
  }

  lemma CutsConcat(unique: Unique, c: Cutter, a: seq<ItemKey>, b: seq<ItemKey>)
    requires Known(unique, a) && Known(unique, b)
    ensures Known(unique, a + b)
    ensures Cuts(unique, c, a + b) == Cuts(unique, c, a) + Cuts(unique, c, b)
  {
    hide Cut;
  }

  /** More picks and more considered keys leave every justification standing. */
  lemma JustifiedMore(links: Links, unique: Unique, c: Cutter, b: Budget, picks: seq<ItemKey>, considered: set<ItemKey>,
                      more: seq<ItemKey>, considered2: set<ItemKey>)
    requires Growing(b)
    requires AllJustified(links, unique, c, b, picks, considered) && considered <= considered2
    requires Unused(unique, considered, [], more) && Known(unique, picks)
    ensures forall k :: k in considered && k !in picks + more ==>
              Justified(links, unique, c, b, picks + more, considered2, k)
  {
    forall k | k in considered && k !in picks + more
      ensures Justified(links, unique, c, b, picks + more, considered2, k) {
      assert Justified(links, unique, c, b, picks, considered, k);
      if n :| n in Newer(links, unique, k) && n in considered && n !in picks {
        assert n in considered2 && n !in picks + more;
      } else {
        OverMore(unique, c, b, picks, more, k);
      }
    }
  }

  // ---------------------------------------------------------------- one key after another

  function NotIn(keys: seq<ItemKey>, admitted: set<ItemKey>): seq<ItemKey> {
    if keys == [] then []
    else NotIn(keys[..|keys|-1], admitted) + (if keys[|keys|-1] !in admitted then [keys[|keys|-1]] else [])
  }

  lemma {:induction false} NotInFacts(keys: seq<ItemKey>, admitted: set<ItemKey>)
    ensures forall k :: k in NotIn(keys, admitted) <==> k in keys && k !in admitted
    ensures NoDup(keys) ==> NoDup(NotIn(keys, admitted))
  {
    if keys != [] {
      var init, last := keys[..|keys|-1], keys[|keys|-1];
      NotInFacts(init, admitted);
      assert keys == init + [last];
      if NoDup(keys) {
        assert NoDup(init) && last !in init;
        NoDupConcat(NotIn(init, admitted), []);
        if last !in admitted { NoDupConcat(NotIn(init, admitted), [last]); }
      }
    }
  }

  ghost predicate NewerWithin(links: Links, unique: Unique, keys: seq<ItemKey>, all: seq<ItemKey>) {
    forall k, n :: k in keys && n in Newer(links, unique, k) ==> n in all
  }

  /** Adding keys whose newer statements are all picked keeps the picks protected. */
  lemma ProtectedMore(links: Links, unique: Unique, picks: seq<ItemKey>, more: seq<ItemKey>)
    requires Protected(links, unique, picks)
    requires NewerWithin(links, unique, more, picks + more)
    ensures Protected(links, unique, picks + more)
  {
    hide Newer;
  }

  /** When none of a key's pending statements was refused alone, the key itself no longer fits. */
  lemma StillOver(unique: Unique, c: Cutter, b: Budget, picks: seq<ItemKey>, key: ItemKey, pending: seq<ItemKey>,
                  sorted: seq<ItemKey>)
    requires Growing(b)
    requires Known(unique, picks) && key in unique
    requires multiset(sorted) == multiset(pending)
    requires Known(unique, [key] + pending)
    requires !Allowed(b, Cuts(unique, c, picks) + Cuts(unique, c, [key] + pending))
    ensures Known(unique, picks + sorted)
    ensures !Allowed(b, Cuts(unique, c, picks + sorted) + [Cut(c, unique[key])])
  {
    SameMultiset(sorted, pending);
    forall k | k in picks + sorted ensures k in unique {
      assert k in picks || k in sorted;
    }
    CutsMultiset(unique, c, sorted, pending);
    var older, p, s, x :=
      Cuts(unique, c, picks), Cuts(unique, c, pending), Cuts(unique, c, sorted), Cut(c, unique[key]);
    CutsConcat(unique, c, picks, sorted);
    CutsConcat(unique, c, [key], pending);
    assert Cuts(unique, c, [key]) == [x];
    hide *;
    assert older + ([x] + p) == older + [x] + p;
    assert multiset(older + s + [x]) == multiset(older + [x] + p + []);
    OverGrows(b, older + [x] + p, older + s + [x], []);
  }

  lemma {:induction false} CutsMultiset(unique: Unique, c: Cutter, a: seq<ItemKey>, b: seq<ItemKey>)
    requires multiset(a) == multiset(b)
    requires Known(unique, a) && Known(unique, b)
    ensures multiset(Cuts(unique, c, a)) == multiset(Cuts(unique, c, b))
    decreases |a|
  {
    if a == [] {
      assert |multiset(b)| == |b| && |multiset(a)| == 0;
      assert a == b;
    } else {
      var j := Position(b, a[0]);
      CutsWithout(unique, c, a, 0);
      CutsWithout(unique, c, b, j);
      hide *;
      TakeOut(a, 0);
      TakeOut(b, j);
      CutsMultiset(unique, c, RemoveAt(a, 0), RemoveAt(b, j));
    }
  }

  lemma CutsWithout(unique: Unique, c: Cutter, keys: seq<ItemKey>, j: nat)
    requires j < |keys| && Known(unique, keys)
    ensures Known(unique, RemoveAt(keys, j))
    ensures keys[j] in unique
    ensures multiset(Cuts(unique, c, keys)) ==
            multiset(Cuts(unique, c, RemoveAt(keys, j))) + multiset{Cut(c, unique[keys[j]])}
  {
    hide Cut;
    var cuts := Cuts(unique, c, keys);
    TakeOut(cuts, j);
    assert keys[j] in keys;
    assert cuts[..j] + cuts[j+1..] == Cuts(unique, c, RemoveAt(keys, j));
    assert cuts[j] in multiset(cuts);
  }

  function Newness(unique: Unique): ItemKey -> int {
    (k: ItemKey) => if k in unique then 0 - unique[k].seqNo as int else 0 as int
  }

  /** The keys of a pending list, newest statement first. */
  function NewestFirst(unique: Unique, keys: seq<ItemKey>): seq<ItemKey> {
    SortBy(Newness(unique), keys)
  }

  /** The keys picked so far, in order, and the keys decided about. */
  datatype Choice = Choice(picks: seq<ItemKey>, considered: set<ItemKey>)

  /** Keys one at a time, each admitted if it fits. */
  function Singly(unique: Unique, c: Cutter, b: Budget, picks: seq<ItemKey>, rest: seq<ItemKey>): seq<ItemKey>
    decreases |rest|
  {
    if rest == [] then picks
    else Singly(unique, c, b, if FitsWith(unique, c, b, picks, [rest[0]]) then picks + [rest[0]] else picks, rest[1..])
  }

  /** The decision about one key and the newer statements not yet picked. */
  function Consider(links: Links, unique: Unique, c: Cutter, b: Budget, ch: Choice, key: ItemKey): Choice {
    var newer, seen := Newer(links, unique, key), ch.considered + {key};
    if exists k :: k in newer && k in seen && k !in Elements(ch.picks) then ch.(considered := seen)
    else
      var pending := NotIn(newer, Elements(ch.picks));
      if FitsWith(unique, c, b, ch.picks, [key] + pending) then
        Choice(ch.picks + ([key] + pending), seen + Elements(pending))
      else Choice(Singly(unique, c, b, ch.picks, NewestFirst(unique, pending)), seen + Elements(pending))
  }

  /** Keys in priority order until the message limit is reached. */
  function PickFrom(links: Links, unique: Unique, c: Cutter, b: Budget, order: seq<ItemKey>, ch: Choice): Choice
    decreases |order|
  {
    if order == [] || |ch.picks| >= b.messages then ch
    else PickFrom(links, unique, c, b, order[1..], if order[0] in ch.considered then ch
                  else Consider(links, unique, c, b, ch, order[0]))
  }

  lemma {:induction false} SinglyKeeps(unique: Unique, c: Cutter, b: Budget, picks: seq<ItemKey>, rest: seq<ItemKey>)
    ensures picks <= Singly(unique, c, b, picks, rest)
    ensures forall k :: k in Singly(unique, c, b, picks, rest) ==> k in picks || k in rest
    decreases |rest|
  {
    hide FitsWith;
    if rest != [] {
      SinglyKeeps(unique, c, b, if FitsWith(unique, c, b, picks, [rest[0]]) then picks + [rest[0]]
                  else picks, rest[1..]);
    }
  }

  lemma ConsiderKeeps(links: Links, unique: Unique, c: Cutter, b: Budget, ch: Choice, key: ItemKey)
    ensures ch.picks <= Consider(links, unique, c, b, ch, key).picks
  {
    hide FitsWith, Newer, NotIn, Singly, NewestFirst;
    SinglyKeeps(unique, c, b, ch.picks, NewestFirst(unique, NotIn(Newer(links, unique, key), Elements(ch.picks))));
  }

  /** Candidates of lower priority never displace what earlier ones were given. */
  lemma {:induction false} PriorityIsKept(links: Links, unique: Unique, c: Cutter, b: Budget, order: seq<ItemKey>,
                                          n: nat, ch: Choice)
    requires n <= |order|
    ensures PickFrom(links, unique, c, b, order[..n], ch).picks <= PickFrom(links, unique, c, b, order, ch).picks
    decreases |order|
  {
    hide Consider;
    if n == 0 {
      PicksGrow(links, unique, c, b, order, ch);
    } else if |ch.picks| < b.messages {
      var next := if order[0] in ch.considered then ch else Consider(links, unique, c, b, ch, order[0]);
      assert order[..n][1..] == order[1..][..n-1];
      PriorityIsKept(links, unique, c, b, order[1..], n - 1, next);
    }
  }

  lemma {:induction false} PicksGrow(links: Links, unique: Unique, c: Cutter, b: Budget, order: seq<ItemKey>,
                                     ch: Choice)
    ensures ch.picks <= PickFrom(links, unique, c, b, order, ch).picks
    decreases |order|
  {
    hide Consider;
    if order != [] && |ch.picks| < b.messages {
      ConsiderKeeps(links, unique, c, b, ch, order[0]);
      PicksGrow(links, unique, c, b, order[1..], if order[0] in ch.considered then ch
                else Consider(links, unique, c, b, ch, order[0]));
    }
  }

  lemma ConsiderCases(links: Links, unique: Unique, c: Cutter, b: Budget, ch: Choice, key: ItemKey)
    ensures var newer, seen := Newer(links, unique, key), ch.considered + {key};
            var pending := NotIn(newer, Elements(ch.picks));
            Consider(links, unique, c, b, ch, key) ==
              if exists k :: k in newer && k in seen && k !in Elements(ch.picks) then ch.(considered := seen)
              else if FitsWith(unique, c, b, ch.picks, [key] + pending) then
                Choice(ch.picks + ([key] + pending), seen + Elements(pending))
              else Choice(Singly(unique, c, b, ch.picks, NewestFirst(unique, pending)), seen + Elements(pending))
  {}

  /** One key of the outer loop, with its newer statements. */
  method ConsiderKey(unique: Unique, c: Cutter, b: Budget, links: Links, key: ItemKey, selected: seq<Item>,
                     admitted: set<ItemKey>, considered: set<ItemKey>, truncated: nat, ghost picks: seq<ItemKey>)
    returns (selected2: seq<Item>, admitted2: set<ItemKey>, considered2: set<ItemKey>, truncated2: nat,
             ghost picks2: seq<ItemKey>)
    requires Selected(unique, c, b, picks, selected, truncated) && admitted == Elements(picks) && key in unique
    ensures Selected(unique, c, b, picks2, selected2, truncated2) && admitted2 == Elements(picks2)
    ensures considered + {key} <= considered2
    ensures Choice(picks2, considered2) == Consider(links, unique, c, b, Choice(picks, considered), key)
  {
    ConsiderCases(links, unique, c, b, Choice(picks, considered), key);
    selected2, admitted2, considered2, truncated2, picks2 := selected, admitted, considered + {key}, truncated, picks;
    var newer := Newer(links, unique, key);
    NewerFacts(links, unique, key);
    hide *;
    if exists k :: k in newer && k in considered2 && k !in admitted {
      return;
    }
    var pending := NotIn(newer, admitted);
    NotInFacts(newer, admitted);
    GroupKnown(unique, key, pending);
    var ok;
    ok, selected2, truncated2 := Admit(unique, c, b, [key] + pending, selected, truncated, picks);
    considered2 := considered2 + Elements(pending);
    if ok {
      picks2, admitted2 := picks + ([key] + pending), admitted + {key} + Elements(pending);
      ElementsConcat(picks, [key] + pending);
      ElementsConcat([key], pending);
      return;
    }
    selected2, admitted2, truncated2, picks2 :=
      AdmitSingly(unique, c, b, pending, selected, admitted, truncated, picks);
  }

  lemma GroupKnown(unique: Unique, key: ItemKey, pending: seq<ItemKey>)
    requires key in unique && forall k :: k in pending ==> k in unique
    ensures Known(unique, [key] + pending) && Known(unique, pending)
  {}

  lemma ElementsConcat(a: seq<ItemKey>, b: seq<ItemKey>)
    ensures Elements(a + b) == Elements(a) + Elements(b)
    ensures a == [] ==> Elements(a) == {}
    ensures |a| == 1 ==> Elements(a) == {a[0]}
    ensures |b| == 1 ==> Elements(b) == {b[0]}
  {}

  /** The pending newer statements one at a time, newest first, when they do not fit together with their source. */
  method AdmitSingly(unique: Unique, c: Cutter, b: Budget, pending: seq<ItemKey>, selected: seq<Item>,
                     admitted: set<ItemKey>, truncated: nat, ghost picks: seq<ItemKey>)
    returns (selected2: seq<Item>, admitted2: set<ItemKey>, truncated2: nat, ghost picks2: seq<ItemKey>)
    requires Selected(unique, c, b, picks, selected, truncated) && admitted == Elements(picks) && Known(unique, pending)
    ensures Selected(unique, c, b, picks2, selected2, truncated2) && admitted2 == Elements(picks2)
    ensures picks2 == Singly(unique, c, b, picks, NewestFirst(unique, pending))
  {
    hide *;
    selected2, admitted2, truncated2, picks2 := selected, admitted, truncated, picks;
    var rest := NewestFirst(unique, pending);
    SortedKnown(unique, pending);
    assert rest[0..] == rest;
    for i := 0 to |rest|
      invariant Selected(unique, c, b, picks2, selected2, truncated2) && admitted2 == Elements(picks2)
      invariant Singly(unique, c, b, picks2, rest[i..]) == Singly(unique, c, b, picks, rest)
    {
      var k := rest[i];
      SinglyStep(unique, c, b, picks2, rest, i);
      OneKnown(unique, rest, i);
      var ok;
      ok, selected2, truncated2 := Admit(unique, c, b, [k], selected2, truncated2, picks2);
      if ok {
        ElementsConcat(picks2, [k]);
        admitted2, picks2 := admitted2 + {k}, picks2 + [k];
      }
    }
    SinglyDone(unique, c, b, picks2, rest);
  }

  lemma SortedKnown(unique: Unique, pending: seq<ItemKey>)
    requires Known(unique, pending)
    ensures Known(unique, NewestFirst(unique, pending))
  {
    SortByFacts(Newness(unique), pending);
  }

  lemma OneKnown(unique: Unique, rest: seq<ItemKey>, i: nat)
    requires Known(unique, rest) && i < |rest|
    ensures Known(unique, [rest[i]])
  {
    assert rest[i] in rest;
  }

  lemma SinglyStep(unique: Unique, c: Cutter, b: Budget, picks: seq<ItemKey>, rest: seq<ItemKey>, i: nat)
    requires i < |rest|
    ensures Singly(unique, c, b, picks, rest[i..]) ==
            Singly(unique, c, b, if FitsWith(unique, c, b, picks, [rest[i]]) then picks + [rest[i]]
                   else picks, rest[i+1..])
  {
    hide FitsWith;
    assert rest[i..][1..] == rest[i+1..];
  }

  lemma SinglyDone(unique: Unique, c: Cutter, b: Budget, picks: seq<ItemKey>, rest: seq<ItemKey>)
    ensures Singly(unique, c, b, picks, rest[|rest|..]) == picks
  {}

  // ---------------------------------------------------------------- what every decision keeps

  ghost predicate PicksSeen(picks: seq<ItemKey>, considered: set<ItemKey>) {
    forall k :: k in picks ==> k in considered
  }

  /** Links and budgets for which the packer is expected to leave nothing out needlessly. */
  ghost predicate Exact(links: Links, unique: Unique, b: Budget) {
    NoRepeats(links, unique) && Growing(b)
  }

  /**
   * What holds between two keys: picks are considered; with one level of links they are protected; with
   * no repeated link they are distinct, and under limits that grow every considered key left out is justified.
   */
  ghost predicate Steady(links: Links, unique: Unique, c: Cutter, b: Budget, ch: Choice) {
    && PicksSeen(ch.picks, ch.considered) && ch.considered <= unique.Keys
    && (OneLevel(links, unique) ==> Protected(links, unique, ch.picks))
    && (NoRepeats(links, unique) ==> NoDup(ch.picks))
    && (Exact(links, unique, b) ==> AllJustified(links, unique, c, b, ch.picks, ch.considered))
  }

  lemma SteadyParts(links: Links, unique: Unique, c: Cutter, b: Budget, ch: Choice)
    requires Steady(links, unique, c, b, ch)
    ensures Known(unique, ch.picks) && ch.considered <= unique.Keys && PicksSeen(ch.picks, ch.considered)
    ensures OneLevel(links, unique) ==> Protected(links, unique, ch.picks)
    ensures NoRepeats(links, unique) ==> NoDup(ch.picks)
    ensures Exact(links, unique, b) ==> AllJustified(links, unique, c, b, ch.picks, ch.considered)
  {
    hide OneLevel, Protected, NoRepeats, NoDup, Exact, AllJustified;
  }

  lemma SteadyWhole(links: Links, unique: Unique, c: Cutter, b: Budget, ch: Choice)
    requires PicksSeen(ch.picks, ch.considered) && ch.considered <= unique.Keys
    requires OneLevel(links, unique) ==> Protected(links, unique, ch.picks)
    requires NoRepeats(links, unique) ==> NoDup(ch.picks)
    requires Exact(links, unique, b) ==> AllJustified(links, unique, c, b, ch.picks, ch.considered)
    ensures Steady(links, unique, c, b, ch)
  {
    hide PicksSeen, OneLevel, Protected, NoRepeats, NoDup, Exact, AllJustified;
  }

  /** Picks grow by keys whose newer statements are all picked; unless links repeat, by new and distinct ones. */
  lemma SteadyAdd(links: Links, unique: Unique, c: Cutter, b: Budget, ch: Choice, more: seq<ItemKey>)
    requires Steady(links, unique, c, b, ch) && Known(unique, more)
    requires NoRepeats(links, unique) ==> NoDup(more) && Unused(unique, ch.considered, ch.picks, more)
    requires OneLevel(links, unique) ==> NewerWithin(links, unique, more, ch.picks + more)
    ensures Steady(links, unique, c, b, Choice(ch.picks + more, ch.considered + Elements(more)))
  {
    var after := Choice(ch.picks + more, ch.considered + Elements(more));
    SteadyParts(links, unique, c, b, ch);
    AddSeen(unique, ch, more);
    hide *;
    if OneLevel(links, unique) { ProtectedMore(links, unique, ch.picks, more); }
    if NoRepeats(links, unique) { AddDistinct(unique, ch, more); }
    if Exact(links, unique, b) {
      ExactParts(links, unique, b);
      AddJustified(links, unique, c, b, ch, more);
    }
    SteadyWhole(links, unique, c, b, after);
  }

  lemma ExactParts(links: Links, unique: Unique, b: Budget)
    requires Exact(links, unique, b)
    ensures NoRepeats(links, unique) && Growing(b)
  {
    hide NoRepeats, Growing;
  }

  lemma AddSeen(unique: Unique, ch: Choice, more: seq<ItemKey>)
    requires PicksSeen(ch.picks, ch.considered) && ch.considered <= unique.Keys && Known(unique, more)
    ensures PicksSeen(ch.picks + more, ch.considered + Elements(more)) && ch.considered + Elements(more) <= unique.Keys
  {}

  lemma AddDistinct(unique: Unique, ch: Choice, more: seq<ItemKey>)
    requires NoDup(ch.picks) && NoDup(more) && Unused(unique, ch.considered, ch.picks, more)
    ensures NoDup(ch.picks + more)
  {
    hide NoDup;
    NoDupConcat(ch.picks, more);
  }

  lemma AddJustified(links: Links, unique: Unique, c: Cutter, b: Budget, ch: Choice, more: seq<ItemKey>)
    requires Growing(b)
    requires AllJustified(links, unique, c, b, ch.picks, ch.considered) && Known(unique, ch.picks)
    requires Unused(unique, ch.considered, ch.picks, more)
    ensures AllJustified(links, unique, c, b, ch.picks + more, ch.considered + Elements(more))
  {
    hide Justified, Newer;
    var seen := ch.considered + Elements(more);
    assert Unused(unique, ch.considered, [], more);
    JustifiedMore(links, unique, c, b, ch.picks, ch.considered, more, seen);
  }

  /** A key may be counted as considered without being picked once that is justified. */
  lemma SteadyLeave(links: Links, unique: Unique, c: Cutter, b: Budget, ch: Choice, key: ItemKey)
    requires Steady(links, unique, c, b, ch) && key in unique
    requires Exact(links, unique, b) ==>
               key in ch.picks || Justified(links, unique, c, b, ch.picks, ch.considered + {key}, key)
    ensures Steady(links, unique, c, b, Choice(ch.picks, ch.considered + {key}))
  {
    SteadyParts(links, unique, c, b, ch);
    AddSeen(unique, ch, [key]);
    ElementsConcat([], [key]);
    assert ch.picks + [key] != [] && forall k :: k in ch.picks ==> k in ch.considered + {key};
    assert PicksSeen(ch.picks, ch.considered + {key});
    hide *;
    if Exact(links, unique, b) {
      ExactParts(links, unique, b);
      LeaveJustified(links, unique, c, b, ch, key);
    }
    SteadyWhole(links, unique, c, b, Choice(ch.picks, ch.considered + {key}));
  }

  lemma LeaveJustified(links: Links, unique: Unique, c: Cutter, b: Budget, ch: Choice, key: ItemKey)
    requires Growing(b)
    requires AllJustified(links, unique, c, b, ch.picks, ch.considered) && Known(unique, ch.picks)
    requires key in ch.picks || Justified(links, unique, c, b, ch.picks, ch.considered + {key}, key)
    ensures AllJustified(links, unique, c, b, ch.picks, ch.considered + {key})
  {
    hide Justified, Newer;
    assert Unused(unique, ch.considered, [], []);
    JustifiedMore(links, unique, c, b, ch.picks, ch.considered, [], ch.considered + {key});
    assert ch.picks + [] == ch.picks;
  }

  /** Every key is a target of `key`, so that with one level of links it has no newer statement itself. */
  ghost predicate Targets(links: Links, unique: Unique, key: ItemKey, keys: seq<ItemKey>) {
    forall k :: k in keys ==> k in Newer(links, unique, key)
  }

  lemma TargetsHaveNone(links: Links, unique: Unique, key: ItemKey, k: ItemKey, all: seq<ItemKey>)
    requires key in unique && k in Newer(links, unique, key)
    ensures OneLevel(links, unique) ==> NewerWithin(links, unique, [k], all)
  {}

  /** Admitting targets one at a time keeps everything; unless all of them came in, some target was left out. */
  lemma {:induction false} SinglySteady(links: Links, unique: Unique, c: Cutter, b: Budget, ch: Choice, key: ItemKey,
                                        rest: seq<ItemKey>)
    requires Steady(links, unique, c, b, ch) && key in unique && Targets(links, unique, key, rest)
             && Known(unique, rest)
    requires NoRepeats(links, unique) ==> NoDup(rest) && Unused(unique, ch.considered, ch.picks, rest)
    ensures var r := Singly(unique, c, b, ch.picks, rest);
            && Steady(links, unique, c, b, Choice(r, ch.considered + Elements(rest)))
            && (NoRepeats(links, unique) ==> r == ch.picks + rest || SomeLeft(rest, r))
    decreases |rest|
  {
    if rest == [] {
      ElementsConcat([], []);
      assert ch.considered + Elements(rest) == ch.considered && ch.picks + rest == ch.picks;
    } else {
      hide *;
      var next := SinglyNext(unique, c, b, ch, rest[0]);
      SinglyOnce(links, unique, c, b, ch, key, rest);
      SinglySteady(links, unique, c, b, next, key, rest[1..]);
      SinglyUnfolds(unique, c, b, ch.picks, rest);
      SinglyJoins(unique, c, b, ch, rest);
      if NoRepeats(links, unique) { SinglyLeft(links, unique, c, b, ch, rest); }
    }
  }

  /** The choice after one key was tried alone. */
  function SinglyNext(unique: Unique, c: Cutter, b: Budget, ch: Choice, k: ItemKey): Choice {
    Choice(if FitsWith(unique, c, b, ch.picks, [k]) then ch.picks + [k] else ch.picks, ch.considered + {k})
  }

  lemma SinglyJoins(unique: Unique, c: Cutter, b: Budget, ch: Choice, rest: seq<ItemKey>)
    requires rest != []
    ensures SinglyNext(unique, c, b, ch, rest[0]).considered + Elements(rest[1..]) == ch.considered + Elements(rest)
    ensures Singly(unique, c, b, ch.picks, rest) ==
              Singly(unique, c, b, SinglyNext(unique, c, b, ch, rest[0]).picks, rest[1..])
  {
    SinglyUnfolds(unique, c, b, ch.picks, rest);
    hide FitsWith, Singly;
    assert rest == [rest[0]] + rest[1..];
    ElementsConcat([rest[0]], rest[1..]);
  }

  lemma SinglyOnce(links: Links, unique: Unique, c: Cutter, b: Budget, ch: Choice, key: ItemKey, rest: seq<ItemKey>)
    requires Steady(links, unique, c, b, ch) && key in unique && rest != []
    requires Targets(links, unique, key, rest) && Known(unique, rest)
    requires NoRepeats(links, unique) ==> NoDup(rest) && Unused(unique, ch.considered, ch.picks, rest)
    ensures var next := SinglyNext(unique, c, b, ch, rest[0]);
            && Steady(links, unique, c, b, next) && Targets(links, unique, key, rest[1..]) && Known(unique, rest[1..])
            && (NoRepeats(links, unique) ==> NoDup(rest[1..]) && Unused(unique, next.considered, next.picks, rest[1..]))
  {
    var k := rest[0];
    RestParts(links, unique, ch, key, rest);
    hide *;
    SinglyNextIs(unique, c, b, ch, k);
    TargetsHaveNone(links, unique, key, k, ch.picks + [k]);
    ElementsConcat([], [k]);
    SteadyParts(links, unique, c, b, ch);
    if FitsWith(unique, c, b, ch.picks, [k]) {
      SteadyAdd(links, unique, c, b, ch, [k]);
    } else {
      if Exact(links, unique, b) {
        ExactParts(links, unique, b);
        NotFitting(unique, c, b, ch.picks, [k]);
        OverJustifies(links, unique, c, b, ch.picks, ch.considered + {k}, k);
      }
      SteadyLeave(links, unique, c, b, ch, k);
    }
  }

  lemma SinglyNextIs(unique: Unique, c: Cutter, b: Budget, ch: Choice, k: ItemKey)
    ensures FitsWith(unique, c, b, ch.picks, [k]) ==>
              SinglyNext(unique, c, b, ch, k) == Choice(ch.picks + [k], ch.considered + {k})
    ensures !FitsWith(unique, c, b, ch.picks, [k]) ==>
              SinglyNext(unique, c, b, ch, k) == Choice(ch.picks, ch.considered + {k})
  {
    hide FitsWith;
  }

  lemma SinglyLeft(links: Links, unique: Unique, c: Cutter, b: Budget, ch: Choice, rest: seq<ItemKey>)
    requires rest != [] && NoDup(rest) && Unused(unique, ch.considered, ch.picks, rest)
    requires var next, r := SinglyNext(unique, c, b, ch, rest[0]), Singly(unique, c, b, ch.picks, rest);
             r == next.picks + rest[1..] || SomeLeft(rest[1..], r)
    ensures var r := Singly(unique, c, b, ch.picks, rest); r == ch.picks + rest || SomeLeft(rest, r)
  {
    hide *;
    var r := Singly(unique, c, b, ch.picks, rest);
    FirstIsFresh(unique, ch, rest);
    SinglyUnfolds(unique, c, b, ch.picks, rest);
    SinglyNextIs(unique, c, b, ch, rest[0]);
    MoreLeft(rest, r);
    if FitsWith(unique, c, b, ch.picks, [rest[0]]) {
      assert ch.picks + [rest[0]] + rest[1..] == ch.picks + rest;
    } else {
      SinglyKeeps(unique, c, b, ch.picks, rest[1..]);
      LeftNow(rest, r);
    }
  }

  lemma FirstIsFresh(unique: Unique, ch: Choice, rest: seq<ItemKey>)
    requires rest != [] && NoDup(rest) && Unused(unique, ch.considered, ch.picks, rest)
    ensures rest == [rest[0]] + rest[1..] && rest[0] !in rest[1..] && rest[0] !in ch.picks
  {
    assert rest == [rest[0]] + rest[1..];
    NoDupCons(rest[0], rest[1..]);
  }

  ghost predicate SomeLeft(rest: seq<ItemKey>, picks: seq<ItemKey>) {
    exists k :: k in rest && k !in picks
  }

  lemma MoreLeft(rest: seq<ItemKey>, picks: seq<ItemKey>)
    requires rest != []
    ensures SomeLeft(rest[1..], picks) ==> SomeLeft(rest, picks)
  {}

  lemma LeftNow(rest: seq<ItemKey>, picks: seq<ItemKey>)
    requires rest != []
    ensures rest[0] !in picks ==> SomeLeft(rest, picks)
  {}

  lemma SinglyUnfolds(unique: Unique, c: Cutter, b: Budget, picks: seq<ItemKey>, rest: seq<ItemKey>)
    requires rest != []
    ensures Singly(unique, c, b, picks, rest) ==
            Singly(unique, c, b, if FitsWith(unique, c, b, picks, [rest[0]]) then picks + [rest[0]]
                   else picks, rest[1..])
  {
    hide FitsWith;
  }

  lemma RestParts(links: Links, unique: Unique, ch: Choice, key: ItemKey, rest: seq<ItemKey>)
    requires rest != [] && Targets(links, unique, key, rest) && Known(unique, rest)
    ensures rest[0] in Newer(links, unique, key) && rest[0] in unique && Known(unique, [rest[0]])
    ensures Targets(links, unique, key, rest[1..]) && Known(unique, rest[1..])
    ensures NoDup(rest) && Unused(unique, ch.considered, ch.picks, rest) ==>
              && NoDup([rest[0]]) && Unused(unique, ch.considered, ch.picks, [rest[0]])
              && NoDup(rest[1..]) && rest[0] !in rest[1..] && rest[0] !in ch.picks
              && Unused(unique, ch.considered + {rest[0]}, ch.picks + [rest[0]], rest[1..])
              && Unused(unique, ch.considered + {rest[0]}, ch.picks, rest[1..])
  {
    hide Newer;
    assert rest == [rest[0]] + rest[1..];
    NoDupCons(rest[0], rest[1..]);
  }

  /** One decision keeps everything. */
  lemma ConsiderSteady(links: Links, unique: Unique, c: Cutter, b: Budget, ch: Choice, key: ItemKey)
    requires Steady(links, unique, c, b, ch) && key in unique && key !in ch.considered
    ensures Steady(links, unique, c, b, Consider(links, unique, c, b, ch, key))
  {
    hide *;
    ConsiderCases(links, unique, c, b, ch, key);
    NewerFacts(links, unique, key);
    SteadyParts(links, unique, c, b, ch);
    var newer, seen := Newer(links, unique, key), ch.considered + {key};
    var pending := NotIn(newer, Elements(ch.picks));
    NotInFacts(newer, Elements(ch.picks));
    if exists k :: k in newer && k in seen && k !in Elements(ch.picks) {
      LeftOutWith(links, unique, c, b, ch.picks, ch.considered, key);
      SteadyLeave(links, unique, c, b, ch, key);
    } else {
      PendingFresh(links, unique, ch.picks, ch.considered, key, pending);
      NoDupCons(key, pending);
      RepeatsNot(links, unique, key);
      GroupKnown(unique, key, pending);
      if FitsWith(unique, c, b, ch.picks, [key] + pending) {
        GroupProtected(links, unique, ch.picks, key, pending);
        SteadyAdd(links, unique, c, b, ch, [key] + pending);
        ElementsConcat([key], pending);
        assert ch.considered + Elements([key] + pending) == seen + Elements(pending);
      } else {
        GroupRefused(links, unique, c, b, ch, key, pending);
      }
    }
  }

  lemma RepeatsNot(links: Links, unique: Unique, key: ItemKey)
    requires key in unique
    ensures NoRepeats(links, unique) ==> NoDup(Newer(links, unique, key))
  {
    hide NoDup, Newer;
  }

  /** A group that does not fit gives way to its newer statements, one at a time. */
  lemma GroupRefused(links: Links, unique: Unique, c: Cutter, b: Budget, ch: Choice, key: ItemKey,
                     pending: seq<ItemKey>)
    requires Steady(links, unique, c, b, ch) && key in unique && key !in ch.considered && key !in pending
    requires NoRepeats(links, unique) ==> NoDup(pending)
    requires Unused(unique, ch.considered, ch.picks, pending) && Among(pending, Newer(links, unique, key))
    requires Known(unique, [key] + pending) && Known(unique, pending)
    requires !FitsWith(unique, c, b, ch.picks, [key] + pending)
    ensures Steady(links, unique, c, b, Choice(Singly(unique, c, b, ch.picks, NewestFirst(unique, pending)),
                                               ch.considered + {key} + Elements(pending)))
  {
    hide *;
    var rest := NewestFirst(unique, pending);
    SteadyParts(links, unique, c, b, ch);
    NewestFacts(unique, pending);
    SortedTargets(links, unique, ch, key, pending, rest);
    SameElements(rest, pending);
    SinglySteady(links, unique, c, b, ch, key, rest);
    var picks2 := Singly(unique, c, b, ch.picks, rest);
    var after := Choice(picks2, ch.considered + Elements(rest));
    SteadyParts(links, unique, c, b, after);
    if Exact(links, unique, b) {
      ExactParts(links, unique, b);
      NotFitting(unique, c, b, ch.picks, [key] + pending);
      KeyIsJustified(links, unique, c, b, ch.picks, picks2, after.considered, key, pending, rest);
    }
    SteadyLeave(links, unique, c, b, after, key);
    assert after.considered + {key} == ch.considered + {key} + Elements(pending);
  }

  lemma SortedTargets(links: Links, unique: Unique, ch: Choice, key: ItemKey, pending: seq<ItemKey>, rest: seq<ItemKey>)
    requires Unused(unique, ch.considered, ch.picks, pending) && Among(pending, Newer(links, unique, key))
    requires forall k :: k in rest <==> k in pending
    ensures Unused(unique, ch.considered, ch.picks, rest) && Targets(links, unique, key, rest) && Known(unique, rest)
  {
    hide Newer;
  }

  lemma LeftOutWith(links: Links, unique: Unique, c: Cutter, b: Budget, picks: seq<ItemKey>, considered: set<ItemKey>,
                    key: ItemKey)
    requires exists k :: k in Newer(links, unique, key) && k in considered + {key} && k !in Elements(picks)
    ensures Justified(links, unique, c, b, picks, considered + {key}, key)
  {}

  lemma PendingFresh(links: Links, unique: Unique, picks: seq<ItemKey>, considered: set<ItemKey>, key: ItemKey,
                     pending: seq<ItemKey>)
    requires key in unique && key !in considered && PicksSeen(picks, considered)
    requires forall k :: k in Newer(links, unique, key) ==> k in unique && k != key
    requires !exists k :: k in Newer(links, unique, key) && k in considered + {key} && k !in Elements(picks)
    requires forall k :: k in pending <==> k in Newer(links, unique, key) && k !in Elements(picks)
    ensures Unused(unique, considered, picks, [key] + pending) && Unused(unique, considered, picks, pending)
    ensures Among(pending, Newer(links, unique, key)) && Among(Newer(links, unique, key), picks + ([key] + pending))
    ensures key !in pending && forall k :: k in pending ==> k in unique
  {
    hide Newer;
  }

  lemma GroupProtected(links: Links, unique: Unique, picks: seq<ItemKey>, key: ItemKey, pending: seq<ItemKey>)
    requires key in unique && Among(pending, Newer(links, unique, key))
             && Among(Newer(links, unique, key), picks + ([key] + pending))
    ensures OneLevel(links, unique) ==> NewerWithin(links, unique, [key] + pending, picks + ([key] + pending))
  {
    hide Newer;
  }

  lemma SameElements(a: seq<ItemKey>, b: seq<ItemKey>)
    requires forall k :: k in a <==> k in b
    ensures Elements(a) == Elements(b)
  {}

  lemma KeyIsJustified(links: Links, unique: Unique, c: Cutter, b: Budget, picks: seq<ItemKey>, picks2: seq<ItemKey>,
                       seen: set<ItemKey>, key: ItemKey, pending: seq<ItemKey>, rest: seq<ItemKey>)
    requires Growing(b)
    requires Known(unique, picks) && Known(unique, [key] + pending) && key in unique && Known(unique, picks2)
    requires !Allowed(b, Cuts(unique, c, picks) + Cuts(unique, c, [key] + pending))
    requires multiset(rest) == multiset(pending) && Elements(rest) <= seen && Targets(links, unique, key, rest)
    requires picks2 == picks + rest || SomeLeft(rest, picks2)
    ensures Justified(links, unique, c, b, picks2, seen + {key}, key)
  {
    hide Newer, Allowed, Cuts, Cut;
    if picks2 == picks + rest {
      StillOver(unique, c, b, picks, key, pending, rest);
      OverIsJustified(links, unique, c, b, picks2, seen + {key}, key);
    } else {
      var k :| k in rest && k !in picks2;
      assert k in Elements(rest);
      NewerLeftOut(links, unique, c, b, picks2, seen + {key}, key, k);
    }
  }

  lemma NewestFacts(unique: Unique, pending: seq<ItemKey>)
    ensures var rest := NewestFirst(unique, pending);
            && multiset(rest) == multiset(pending) && (forall k :: k in rest <==> k in pending)
            && (NoDup(pending) ==> NoDup(rest))
  {
    SortByFacts(Newness(unique), pending);
    if NoDup(pending) { SortByNoDup(Newness(unique), pending); }
  }

  lemma OverJustifies(links: Links, unique: Unique, c: Cutter, b: Budget, picks: seq<ItemKey>, considered: set<ItemKey>,
                      k: ItemKey)
    requires k in unique && Known(unique, picks) && Known(unique, [k])
    requires !Allowed(b, Cuts(unique, c, picks) + Cuts(unique, c, [k]))
    ensures Justified(links, unique, c, b, picks, considered, k)
  {
    assert Cuts(unique, c, [k]) == [Cut(c, unique[k])];
  }

  lemma OverIsJustified(links: Links, unique: Unique, c: Cutter, b: Budget, picks: seq<ItemKey>,
                        considered: set<ItemKey>, k: ItemKey)
    requires k in unique && Known(unique, picks)
    requires !Allowed(b, Cuts(unique, c, picks) + [Cut(c, unique[k])])
    ensures Justified(links, unique, c, b, picks, considered, k)
  {}

  lemma NewerLeftOut(links: Links, unique: Unique, c: Cutter, b: Budget, picks: seq<ItemKey>, considered: set<ItemKey>,
                     k: ItemKey, n: ItemKey)
    requires n in Newer(links, unique, k) && n in considered && n !in picks
    ensures Justified(links, unique, c, b, picks, considered, k)
  {}

  /** All decisions keep everything, whatever the order the keys come in. */
  lemma {:induction false} PickFromSteady(links: Links, unique: Unique, c: Cutter, b: Budget, order: seq<ItemKey>,
                                          ch: Choice)
    requires Steady(links, unique, c, b, ch) && Known(unique, order)
    ensures Steady(links, unique, c, b, PickFrom(links, unique, c, b, order, ch))
    ensures var r := PickFrom(links, unique, c, b, order, ch);
            |r.picks| >= b.messages || (ch.considered + Elements(order) <= r.considered)
    decreases |order|
  {
    hide *;
    if order != [] && |ch.picks| < b.messages {
      PickUnfolds(links, unique, c, b, order, ch);
      OrderUncons(unique, order);
      if order[0] in ch.considered {
        PickFromSteady(links, unique, c, b, order[1..], ch);
      } else {
        ConsiderSteady(links, unique, c, b, ch, order[0]);
        ConsiderSees(links, unique, c, b, ch, order[0]);
        PickFromSteady(links, unique, c, b, order[1..], Consider(links, unique, c, b, ch, order[0]));
      }
    } else {
      PickStops(links, unique, c, b, order, ch);
      ElementsConcat(order, []);
    }
  }

  lemma OrderUncons(unique: Unique, order: seq<ItemKey>)
    requires order != [] && Known(unique, order)
    ensures order[0] in unique && Known(unique, order[1..]) && Elements(order) == {order[0]} + Elements(order[1..])
  {
    assert order == [order[0]] + order[1..];
  }

  lemma PickStops(links: Links, unique: Unique, c: Cutter, b: Budget, order: seq<ItemKey>, ch: Choice)
    requires order == [] || |ch.picks| >= b.messages
    ensures PickFrom(links, unique, c, b, order, ch) == ch
  {
    hide Consider;
  }

  lemma ConsiderSees(links: Links, unique: Unique, c: Cutter, b: Budget, ch: Choice, key: ItemKey)
    ensures ch.considered + {key} <= Consider(links, unique, c, b, ch, key).considered
  {
    hide FitsWith, Newer, NotIn, Singly, NewestFirst;
  }

  lemma PickUnfolds(links: Links, unique: Unique, c: Cutter, b: Budget, order: seq<ItemKey>, ch: Choice)
    requires order != [] && |ch.picks| < b.messages
    ensures PickFrom(links, unique, c, b, order, ch) ==
            PickFrom(links, unique, c, b, order[1..],
                     if order[0] in ch.considered then ch else Consider(links, unique, c, b, ch, order[0]))
  {
    hide Consider;
  }

  // ---------------------------------------------------------------- the whole packing

  datatype PackResult = InvalidLimits | Packed(context: Context)

  /** Candidates by key; a repeated key keeps its first item. */
  function UniqueOf(candidates: seq<Item>): Unique {
    if candidates == [] then map[]
    else
      var u, last := UniqueOf(candidates[..|candidates|-1]), candidates[|candidates|-1];
      if KeyOf(last) in u then u else u[KeyOf(last) := last]
  }

  /** The keys in order of first appearance. */
  function OrderOf(candidates: seq<Item>): seq<ItemKey> {
    if candidates == [] then []
    else
      var o, last := OrderOf(candidates[..|candidates|-1]), candidates[|candidates|-1];
      if KeyOf(last) in UniqueOf(candidates[..|candidates|-1]) then o else o + [KeyOf(last)]
  }

  lemma {:induction false} OrderFacts(candidates: seq<Item>)
    ensures NoDup(OrderOf(candidates)) && Elements(OrderOf(candidates)) == UniqueOf(candidates).Keys
    ensures |OrderOf(candidates)| == |UniqueOf(candidates)|
    ensures Keyed(UniqueOf(candidates))
    ensures forall i :: 0 <= i < |candidates| ==> KeyOf(candidates[i]) in UniqueOf(candidates)
    ensures forall k :: k in UniqueOf(candidates) ==> UniqueOf(candidates)[k] in candidates
  {
    if candidates != [] {
      var init, last := candidates[..|candidates|-1], candidates[|candidates|-1];
      assert candidates == init + [last];
      OrderFacts(init);
      if KeyOf(last) !in UniqueOf(init) {
        assert KeyOf(last) !in OrderOf(init) by { assert KeyOf(last) !in Elements(OrderOf(init)); }
        NoDupConcat(OrderOf(init), [KeyOf(last)]);
      }
    }
  }

  /** The first candidate with a key is the one kept. */
  lemma {:induction false} FirstIsKept(candidates: seq<Item>, i: nat)
    requires i < |candidates| && forall j :: 0 <= j < i ==> KeyOf(candidates[j]) != KeyOf(candidates[i])
    ensures KeyOf(candidates[i]) in UniqueOf(candidates) && UniqueOf(candidates)[KeyOf(candidates[i])] == candidates[i]
  {
    var init, last := candidates[..|candidates|-1], candidates[|candidates|-1];
    OrderFacts(init);
    if i == |candidates| - 1 {
      NotSeen(init, KeyOf(last));
    } else {
      FirstIsKept(init, i);
    }
  }

  lemma {:induction false} NotSeen(candidates: seq<Item>, k: ItemKey)
    requires forall j :: 0 <= j < |candidates| ==> KeyOf(candidates[j]) != k
    ensures k !in UniqueOf(candidates)
  {
    if candidates != [] { NotSeen(candidates[..|candidates|-1], k); }
  }

  /** Which keys went into a context, in the order they were admitted. */
  ghost predicate MadeFrom(unique: Unique, c: Cutter, picks: seq<ItemKey>, ctx: Context) {
    && Known(unique, picks)
    && ctx.items == SortBy(BySeq(), Cuts(unique, c, picks)) && ctx.truncated == Shorter(unique, c, picks)
    && |ctx.items| + ctx.omitted == |unique|
  }

  /** The limits, on the final rendered text. */
  ghost predicate WithinLimits(b: Budget, ctx: Context) {
    && ctx.text == Render(Blocks(ctx.items))
    && (ctx.items != [] ==>
          && |ctx.items| <= b.messages && |ctx.text| <= b.chars
          && (b.tokens.Some? ==> b.tokens.value.count(ctx.text) <= b.tokens.value.most))
  }

  /** Every key left out could not have been added, or would have been shown without a newer statement of it. */
  ghost predicate NothingMoreFits(links: Links, unique: Unique, c: Cutter, b: Budget, picks: seq<ItemKey>) {
    forall k :: k in unique && k !in picks ==> Justified(links, unique, c, b, picks, unique.Keys, k)
  }

  /**
   * What the packer gives back is what its priority rule picks, cut, counted and in conversation order.
   * The limits hold on the final text.  With one level of links no source is shown without its newer
   * statements; when no list of links repeats a statement every key is shown once, and unless a token
   * counter charges less for more, everything left out had to be.
   */
  method PackContext(candidates: seq<Item>, b: Budget, c: Cutter, links: Links)
    returns (result: PackResult, ghost picks: seq<ItemKey>)
    ensures result.InvalidLimits? <==>
              b.messages == 0 || b.chars == 0 || c.window == 0 || (b.tokens.Some? && b.tokens.value.most == 0)
    ensures result.Packed? ==> MadeFrom(UniqueOf(candidates), c, picks, result.context)
    ensures result.Packed? ==>
              picks == PickFrom(links, UniqueOf(candidates), c, b, OrderOf(candidates), Choice([], {})).picks
    ensures result.Packed? ==> WithinLimits(b, result.context) && SortedBy(BySeq(), result.context.items)
    ensures result.Packed? && OneLevel(links, UniqueOf(candidates)) ==> Protected(links, UniqueOf(candidates), picks)
    ensures result.Packed? && NoRepeats(links, UniqueOf(candidates)) ==> NoDup(picks)
    ensures result.Packed? && Exact(links, UniqueOf(candidates), b) ==>
              NothingMoreFits(links, UniqueOf(candidates), c, b, picks)
  {
    picks := [];
    if b.messages == 0 || b.chars == 0 || c.window == 0 || (b.tokens.Some? && b.tokens.value.most == 0) {
      return InvalidLimits, picks;
    }
    var unique, order := CollectUnique(candidates);
    OrderFacts(candidates);
    hide *;
    var selected, truncated;
    selected, truncated, picks := PickAll(unique, order, b, c, links);
    SelectedParts(unique, c, b, picks, selected, truncated);
    SortByFacts(BySeq(), selected);
    var items := SortBy(BySeq(), selected);
    var ctx := Context(Render(Blocks(items)), items, |unique| - |selected|, truncated);
    result := Packed(ctx);
    PackedLimits(b, selected, ctx);
    PackedFrom(unique, c, picks, selected, ctx);
    PicksAreSound(links, unique, c, b, order);
  }

  /** What the priority rule picks, for any links, budget and order of the keys. */
  lemma PicksAreSound(links: Links, unique: Unique, c: Cutter, b: Budget, order: seq<ItemKey>)
    requires Elements(order) == unique.Keys
    ensures var picks := PickFrom(links, unique, c, b, order, Choice([], {})).picks;
            && Known(unique, picks)
            && (OneLevel(links, unique) ==> Protected(links, unique, picks))
            && (NoRepeats(links, unique) ==> NoDup(picks))
            && (Exact(links, unique, b) ==> NothingMoreFits(links, unique, c, b, picks))
  {
    Nothing(links, unique, c, b);
    OrderKnown(order, unique);
    hide *;
    PickFromSteady(links, unique, c, b, order, Choice([], {}));
    var r := PickFrom(links, unique, c, b, order, Choice([], {}));
    SteadyParts(links, unique, c, b, r);
    if Exact(links, unique, b) { LeftOverIsJustified(links, unique, c, b, r); }
  }

  /** The outer loop over the keys, until they run out or the message limit is reached. */
  method PickAll(unique: Unique, order: seq<ItemKey>, b: Budget, c: Cutter, links: Links)
    returns (selected: seq<Item>, truncated: nat, ghost picks: seq<ItemKey>)
    requires Elements(order) == unique.Keys
    ensures Selected(unique, c, b, picks, selected, truncated)
    ensures picks == PickFrom(links, unique, c, b, order, Choice([], {})).picks
  {
    OrderKnown(order, unique);
    NothingSelected(unique, c, b);
    hide *;
    selected, truncated, picks := [], 0, [];
    var admitted: set<ItemKey>, considered: set<ItemKey>, i := {}, {}, 0;
    assert order[0..] == order;
    while i < |order| && |selected| < b.messages
      invariant i <= |order|
      invariant Selected(unique, c, b, picks, selected, truncated) && admitted == Elements(picks)
      invariant PickFrom(links, unique, c, b, order[i..], Choice(picks, considered)) ==
                PickFrom(links, unique, c, b, order, Choice([], {}))
    {
      SelectedParts(unique, c, b, picks, selected, truncated);
      PickStep(links, unique, c, b, order, i, Choice(picks, considered));
      OneKnown(unique, order, i);
      KnownFirst(unique, order[i]);
      if order[i] !in considered {
        selected, admitted, considered, truncated, picks :=
          ConsiderKey(unique, c, b, links, order[i], selected, admitted, considered, truncated, picks);
      }
      i := i + 1;
    }
    SelectedParts(unique, c, b, picks, selected, truncated);
    PickDone(links, unique, c, b, order, i, Choice(picks, considered));
  }

  lemma KnownFirst(unique: Unique, k: ItemKey)
    requires Known(unique, [k])
    ensures k in unique
  {
    assert k in [k];
  }

  lemma PickStep(links: Links, unique: Unique, c: Cutter, b: Budget, order: seq<ItemKey>, i: nat, ch: Choice)
    requires i < |order| && |ch.picks| < b.messages
    ensures PickFrom(links, unique, c, b, order[i..], ch) ==
            PickFrom(links, unique, c, b, order[i+1..], if order[i] in ch.considered then ch
                     else Consider(links, unique, c, b, ch, order[i]))
  {
    hide Consider;
    assert order[i..][1..] == order[i+1..];
  }

  lemma PickDone(links: Links, unique: Unique, c: Cutter, b: Budget, order: seq<ItemKey>, i: nat, ch: Choice)
    requires i <= |order| && (i == |order| || |ch.picks| >= b.messages)
    ensures PickFrom(links, unique, c, b, order[i..], ch) == ch
  {
    hide Consider;
  }

  /** The first loop: one item per key, first come. */
  method CollectUnique(candidates: seq<Item>) returns (unique: Unique, order: seq<ItemKey>)
    ensures unique == UniqueOf(candidates) && order == OrderOf(candidates)
  {
    unique, order := map[], [];
    for i := 0 to |candidates|
      invariant unique == UniqueOf(candidates[..i]) && order == OrderOf(candidates[..i])
    {
      assert candidates[..i+1][..i] == candidates[..i];
      var key := KeyOf(candidates[i]);
      if key !in unique {
        unique, order := unique[key := candidates[i]], order + [key];
      }
    }
    assert candidates[..|candidates|] == candidates;
  }

  lemma OrderKnown(order: seq<ItemKey>, unique: Unique)
    requires Elements(order) == unique.Keys
    ensures Known(unique, order)
  {
    forall k | k in order ensures k in unique { assert k in Elements(order); }
  }

  lemma Nothing(links: Links, unique: Unique, c: Cutter, b: Budget)
    ensures Steady(links, unique, c, b, Choice([], {}))
  {}

  lemma NothingSelected(unique: Unique, c: Cutter, b: Budget)
    ensures Selected(unique, c, b, [], [], 0) && Elements<ItemKey>([]) == {}
  {}

  lemma PackedLimits(b: Budget, selected: seq<Item>, ctx: Context)
    requires ctx.items == SortBy(BySeq(), selected) && ctx.text == Render(Blocks(ctx.items))
    requires |ctx.items| == |selected| && (selected != [] ==> Allowed(b, selected))
    ensures WithinLimits(b, ctx)
  {
    hide Render, SortBy, Blocks;
  }

  lemma PackedFrom(unique: Unique, c: Cutter, picks: seq<ItemKey>, selected: seq<Item>, ctx: Context)
    requires Known(unique, picks) && selected == Cuts(unique, c, picks)
    requires ctx.items == SortBy(BySeq(), selected) && |ctx.items| == |selected|
    requires ctx.omitted == |unique| - |selected| && ctx.truncated == Shorter(unique, c, picks)
    ensures MadeFrom(unique, c, picks, ctx)
  {
    hide SortBy, Cuts, Shorter;
  }

  lemma LeftOverIsJustified(links: Links, unique: Unique, c: Cutter, b: Budget, r: Choice)
    requires AllJustified(links, unique, c, b, r.picks, r.considered) && r.considered <= unique.Keys
             && Known(unique, r.picks)
    requires |r.picks| >= b.messages || unique.Keys <= r.considered
    ensures NothingMoreFits(links, unique, c, b, r.picks)
  {
    hide Newer, Cut, Shown;
    forall k | k in unique && k !in r.picks ensures Justified(links, unique, c, b, r.picks, unique.Keys, k) {
      if k in r.considered {
        assert Justified(links, unique, c, b, r.picks, r.considered, k);
      } else {
        OverByCount(b, Cuts(unique, c, r.picks) + [Cut(c, unique[k])]);
      }
    }
  }

  lemma OverByCount(b: Budget, items: seq<Item>)
    requires |items| > b.messages
    ensures !Allowed(b, items)
  {}
}
