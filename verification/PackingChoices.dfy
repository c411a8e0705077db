/**
 * What the packer's priority rule picks, decision by decision, said over the candidates, their links and their
 * numbers.
 */
module PackingChoices {
  import opened Wrappers
  import opened Sequences
  import opened Rendering
  import opened Packing
  import Relevance

  // ---------------------------------------------------------------- the candidates in priority order

  /** No earlier candidate has the key of candidate `i`. */
  ghost predicate IsFirst(candidates: seq<Item>, i: nat) {
    i < |candidates| && forall j :: 0 <= j < i ==> KeyOf(candidates[j]) != KeyOf(candidates[i])
  }

  /** `at` lists, in order, the positions of the first candidates with their keys. */
  ghost predicate FirstAppearances(candidates: seq<Item>, at: seq<nat>) {
    && (forall k, l :: 0 <= k < l < |at| ==> at[k] < at[l])
    && (forall i: nat :: i in at <==> IsFirst(candidates, i))
  }

  ghost predicate KeysAt(candidates: seq<Item>, at: seq<nat>, order: seq<ItemKey>, unique: Unique) {
    && |order| == |at| && Elements(order) == unique.Keys
    && forall k :: 0 <= k < |at| ==> KeyAt(candidates, at[k], order[k], unique)
  }

  /** The key is that of candidate `i`, and stands for it. */
  ghost predicate KeyAt(candidates: seq<Item>, i: nat, key: ItemKey, unique: Unique) {
    && i < |candidates| && key == ItemKey(candidates[i].messageId, candidates[i].pointer)
    && key in unique && unique[key] == candidates[i]
  }

  /** Priority is the order of first appearance, and a repeated key keeps its first item. */
  lemma {:induction false} CandidatesInOrder(candidates: seq<Item>) returns (at: seq<nat>)
    ensures FirstAppearances(candidates, at) && KeysAt(candidates, at, OrderOf(candidates), UniqueOf(candidates))
  {
    if candidates == [] {
      at := [];
    } else {
      var n := |candidates| - 1;
      var init, key := candidates[..n], KeyOf(candidates[n]);
      var before := CandidatesInOrder(init);
      at := if key in UniqueOf(init) then before else before + [n];
      FirstsMore(candidates, before);
      KeysMore(candidates, before);
      hide *;
    }
  }

  lemma FirstsMore(candidates: seq<Item>, before: seq<nat>)
    requires candidates != [] && FirstAppearances(candidates[..|candidates|-1], before)
    ensures var n := |candidates| - 1;
            FirstAppearances(candidates,
                             if KeyOf(candidates[n]) in UniqueOf(candidates[..n]) then before else before + [n])
  {
    var n := |candidates| - 1;
    forall i: nat | i < n ensures IsFirst(candidates[..n], i) <==> IsFirst(candidates, i) {}
    FirstIsNew(candidates);
    hide IsFirst, UniqueOf;
    forall k | 0 <= k < |before| ensures before[k] < n {
      assert before[k] in before;
      FirstBelow(candidates[..n], before[k]);
    }
    var at := if KeyOf(candidates[n]) in UniqueOf(candidates[..n]) then before else before + [n];
    forall i: nat ensures i in at <==> IsFirst(candidates, i) {
      if IsFirst(candidates, i) { FirstBelow(candidates, i); }
    }
  }

  lemma FirstBelow(candidates: seq<Item>, i: nat)
    requires IsFirst(candidates, i)
    ensures i < |candidates|
  {}

  lemma FirstIsNew(candidates: seq<Item>)
    requires candidates != []
    ensures var n := |candidates| - 1;
            IsFirst(candidates, n) <==> KeyOf(candidates[n]) !in UniqueOf(candidates[..n])
  {
    var n := |candidates| - 1;
    var init, key := candidates[..n], KeyOf(candidates[n]);
    OrderFacts(init);
    if key in UniqueOf(init) {
      SeenBefore(init, key);
      var j :| 0 <= j < n && KeyOf(init[j]) == key;
      assert candidates[j] == init[j];
    } else {
      forall j | 0 <= j < n ensures KeyOf(candidates[j]) != key { assert init[j] == candidates[j]; }
    }
  }

  lemma KeysMore(candidates: seq<Item>, before: seq<nat>)
    requires candidates != []
    requires var init := candidates[..|candidates|-1]; KeysAt(init, before, OrderOf(init), UniqueOf(init))
    ensures var n := |candidates| - 1;
            KeysAt(candidates, if KeyOf(candidates[n]) in UniqueOf(candidates[..n]) then before else before + [n],
                   OrderOf(candidates), UniqueOf(candidates))
  {
    var n := |candidates| - 1;
    var init, key := candidates[..n], KeyOf(candidates[n]);
    hide UniqueOf, OrderOf, Elements;
    UniqueUnfolds(candidates);
    SameKeys(candidates);
    var order, unique := OrderOf(init), UniqueOf(init);
    forall k | 0 <= k < |before| ensures KeyAt(candidates, before[k], order[k], UniqueOf(candidates)) {
      KeyStays(candidates, before[k], order[k], unique);
    }
    hide KeyAt;
    if key !in unique { LastKey(candidates, unique); }
  }

  lemma KeyStays(candidates: seq<Item>, i: nat, k: ItemKey, unique: Unique)
    requires candidates != [] && KeyAt(candidates[..|candidates|-1], i, k, unique)
    ensures KeyAt(candidates, i, k, unique)
    ensures var last := candidates[|candidates|-1];
            KeyOf(last) !in unique ==> KeyAt(candidates, i, k, unique[KeyOf(last) := last])
  {}

  lemma LastKey(candidates: seq<Item>, unique: Unique)
    requires candidates != []
    ensures var last := candidates[|candidates|-1];
            KeyAt(candidates, |candidates| - 1, KeyOf(last), unique[KeyOf(last) := last])
  {}

  lemma SameKeys(candidates: seq<Item>)
    ensures Elements(OrderOf(candidates)) == UniqueOf(candidates).Keys
  {
    OrderFacts(candidates);
  }

  lemma UniqueUnfolds(candidates: seq<Item>)
    requires candidates != []
    ensures var init, last := candidates[..|candidates|-1], candidates[|candidates|-1];
            if KeyOf(last) in UniqueOf(init) then
              UniqueOf(candidates) == UniqueOf(init) && OrderOf(candidates) == OrderOf(init)
            else
              && UniqueOf(candidates) == UniqueOf(init)[KeyOf(last) := last]
              && OrderOf(candidates) == OrderOf(init) + [KeyOf(last)]
  {}

  lemma {:induction false} SeenBefore(candidates: seq<Item>, key: ItemKey)
    requires key in UniqueOf(candidates)
    ensures exists j :: 0 <= j < |candidates| && KeyOf(candidates[j]) == key
  {
    OrderFacts(candidates);
    var j :| 0 <= j < |candidates| && candidates[j] == UniqueOf(candidates)[key];
  }

  // ---------------------------------------------------------------- one decision

  /** The entries at some positions, in order. */
  ghost predicate TakenAt(all: seq<ItemKey>, at: seq<nat>, some: seq<ItemKey>) {
    && |some| == |at| && (forall k, l :: 0 <= k < l < |at| ==> at[k] < at[l])
    && forall k :: 0 <= k < |at| ==> at[k] < |all| && some[k] == all[at[k]]
  }

  /** The statements a key is linked to that are candidates too, in the order of the link. */
  ghost predicate IsNewer(links: Links, unique: Unique, key: ItemKey, newer: seq<ItemKey>) {
    var all := if key in links then links[key] else [];
    exists at :: TakenAt(all, at, newer) && forall i: nat :: i in at <==> i < |all| && all[i] in unique && all[i] != key
  }

  /** Those of them that are not picked yet. */
  ghost predicate IsPending(newer: seq<ItemKey>, picks: seq<ItemKey>, pending: seq<ItemKey>) {
    exists at :: TakenAt(newer, at, pending) && forall i: nat :: i in at <==> i < |newer| && newer[i] !in picks
  }

  /** The keys' items can be shown together. */
  ghost predicate Fits(unique: Unique, c: Cutter, b: Budget, keys: seq<ItemKey>) {
    && Known(unique, keys) && |keys| <= b.messages
    && var text := Shown(Cuts(unique, c, keys));
    |text| <= b.chars && (b.tokens.Some? ==> b.tokens.value.count(text) <= b.tokens.value.most)
  }

  /** The picks and the first `k` of those that come in fit together. */
  ghost predicate FitsUpTo(unique: Unique, c: Cutter, b: Budget, picks: seq<ItemKey>, adds: seq<ItemKey>, k: nat)
    requires k <= |adds|
  {
    Fits(unique, c, b, picks + adds[..k])
  }

  function Count(keys: seq<ItemKey>, n: ItemKey): nat {
    multiset(keys)[n]
  }

  /** Left out beside the earlier picks and the newer statements admitted before: no older one was preferred. */
  ghost predicate NoRoom(unique: Unique, c: Cutter, b: Budget, picks: seq<ItemKey>, adds: seq<ItemKey>, n: ItemKey) {
    exists k :: 0 <= k <= |adds| && NoRoomAfter(unique, c, b, picks, adds, n, k)
  }

  ghost predicate NoRoomAfter(unique: Unique, c: Cutter, b: Budget, picks: seq<ItemKey>, adds: seq<ItemKey>, n: ItemKey,
                              k: nat)
    requires k <= |adds|
  {
    && n in unique && Known(unique, adds) && !Fits(unique, c, b, picks + adds[..k] + [n])
    && (forall j :: 0 <= j < k ==> unique[adds[j]].seqNo >= unique[n].seqNo)
    && (forall j :: k <= j < |adds| ==> unique[adds[j]].seqNo <= unique[n].seqNo)
  }

  /**
   * What comes in of a pending list one statement at a time: newest first, each within the limits, and one is
   * left out only if it does not fit beside the earlier picks and the newer ones that came in.
   */
  ghost predicate NewestThatFit(unique: Unique, c: Cutter, b: Budget, picks: seq<ItemKey>, pending: seq<ItemKey>,
                                adds: seq<ItemKey>) {
    && multiset(adds) <= multiset(pending) && Known(unique, adds)
    && (forall j, k :: 0 <= j < k < |adds| ==> unique[adds[j]].seqNo >= unique[adds[k]].seqNo)
    && (forall k :: 1 <= k <= |adds| ==> FitsUpTo(unique, c, b, picks, adds, k))
    && (forall n :: Count(adds, n) < Count(pending, n) ==> NoRoom(unique, c, b, picks, adds, n))
  }

  ghost predicate SomeLeftOut(newer: seq<ItemKey>, ch: Choice) {
    exists n :: n in newer && n in ch.considered && n !in ch.picks
  }

  /** What one decision about a source does to the picks and the keys decided about. */
  ghost predicate Decision(links: Links, unique: Unique, c: Cutter, b: Budget, ch: Choice, key: ItemKey,
                           after: Choice) {
    exists newer, pending ::
      && IsNewer(links, unique, key, newer) && IsPending(newer, ch.picks, pending)
      && DecisionWith(unique, c, b, ch, key, newer, pending, after)
  }

  ghost predicate DecisionWith(unique: Unique, c: Cutter, b: Budget, ch: Choice, key: ItemKey, newer: seq<ItemKey>,
                               pending: seq<ItemKey>, after: Choice) {
    if SomeLeftOut(newer, ch) then after == Choice(ch.picks, ch.considered + {key})
    else
      && after.considered == ch.considered + {key} + Elements(pending)
      && if Fits(unique, c, b, ch.picks + [key] + pending) then after.picks == ch.picks + [key] + pending
         else exists adds :: after.picks == ch.picks + adds && NewestThatFit(unique, c, b, ch.picks, pending, adds)
  }

  /** One decision after another, in priority order, about the keys not decided yet and while there is room. */
  ghost predicate DecidedInTurn(links: Links, unique: Unique, c: Cutter, b: Budget, order: seq<ItemKey>,
                                chs: seq<Choice>) {
    && |chs| == |order| + 1 && chs[0] == Choice([], {})
    && forall i :: 0 <= i < |order| ==> TurnAt(links, unique, c, b, order, chs, i)
  }

  ghost predicate TurnAt(links: Links, unique: Unique, c: Cutter, b: Budget, order: seq<ItemKey>, chs: seq<Choice>,
                         i: nat)
    requires i < |order| && |chs| == |order| + 1
  {
    if |chs[i].picks| >= b.messages || order[i] in chs[i].considered then chs[i+1] == chs[i]
    else Decision(links, unique, c, b, chs[i], order[i], chs[i+1])
  }

  // ---------------------------------------------------------------- the rule makes these decisions

  lemma TakenMore(all: seq<ItemKey>, at: seq<nat>, some: seq<ItemKey>)
    requires all != [] && TakenAt(all[..|all|-1], at, some)
    ensures TakenAt(all, at, some) && TakenAt(all, at + [|all|-1], some + [all[|all|-1]])
  {}

  lemma {:induction false} AvailableTaken(all: seq<ItemKey>, unique: Unique, key: ItemKey) returns (at: seq<nat>)
    ensures TakenAt(all, at, Available(all, unique, key))
    ensures forall i: nat :: i in at <==> i < |all| && all[i] in unique && all[i] != key
  {
    if all == [] {
      at := [];
    } else {
      at := AvailableTaken(all[..|all|-1], unique, key);
      TakenMore(all, at, Available(all[..|all|-1], unique, key));
      var last := all[|all|-1];
      if last in unique && last != key { at := at + [|all|-1]; }
    }
  }

  lemma NewerIs(links: Links, unique: Unique, key: ItemKey)
    ensures IsNewer(links, unique, key, Newer(links, unique, key))
  {
    var all := if key in links then links[key] else [];
    var at := AvailableTaken(all, unique, key);
    assert Newer(links, unique, key) == Available(all, unique, key);
  }

  lemma {:induction false} NotInTaken(newer: seq<ItemKey>, picks: seq<ItemKey>) returns (at: seq<nat>)
    ensures TakenAt(newer, at, NotIn(newer, Elements(picks)))
    ensures forall i: nat :: i in at <==> i < |newer| && newer[i] !in picks
  {
    if newer == [] {
      at := [];
    } else {
      var n := |newer| - 1;
      at := NotInTaken(newer[..n], picks);
      TakenMore(newer, at, NotIn(newer[..n], Elements(picks)));
      NotInMore(newer, picks);
      hide *;
      if newer[n] !in picks { at := at + [n]; }
    }
  }

  lemma NotInMore(newer: seq<ItemKey>, picks: seq<ItemKey>)
    requires newer != []
    ensures var n := |newer| - 1;
            NotIn(newer, Elements(picks)) ==
              if newer[n] in picks then NotIn(newer[..n], Elements(picks))
              else NotIn(newer[..n], Elements(picks)) + [newer[n]]
  {
    assert NotIn(newer[..|newer|-1], Elements(picks)) + [] == NotIn(newer[..|newer|-1], Elements(picks));
  }

  lemma PendingIs(newer: seq<ItemKey>, picks: seq<ItemKey>)
    ensures IsPending(newer, picks, NotIn(newer, Elements(picks)))
  {
    var at := NotInTaken(newer, picks);
  }

  lemma FitsIs(unique: Unique, c: Cutter, b: Budget, picks: seq<ItemKey>, keys: seq<ItemKey>)
    ensures FitsWith(unique, c, b, picks, keys) <==> Fits(unique, c, b, picks + keys)
  {
    if Known(unique, picks) && Known(unique, keys) {
      FitsWithIs(unique, c, b, picks, keys);
      CutsConcat(unique, c, picks, keys);
    } else {
      KnownBoth(unique, picks, keys);
    }
    hide FitsWith, Shown, Cut;
  }

  lemma KnownBoth(unique: Unique, picks: seq<ItemKey>, keys: seq<ItemKey>)
    ensures Known(unique, picks + keys) <==> Known(unique, picks) && Known(unique, keys)
    ensures !Known(unique, picks) || !Known(unique, keys) ==>
              forall c, b :: !FitsWith(unique, c, b, picks, keys) && !Fits(unique, c, b, picks + keys)
  {
    forall k ensures k in picks + keys <==> k in picks || k in keys {}
    hide Shown, Cut;
  }

  ghost predicate NewestSorted(unique: Unique, rest: seq<ItemKey>) {
    Known(unique, rest) && forall i, j :: 0 <= i < j < |rest| ==> unique[rest[i]].seqNo >= unique[rest[j]].seqNo
  }

  lemma PendingSorted(unique: Unique, pending: seq<ItemKey>)
    requires Known(unique, pending)
    ensures NewestSorted(unique, NewestFirst(unique, pending))
            && multiset(NewestFirst(unique, pending)) == multiset(pending)
  {
    SortByFacts(Newness(unique), pending);
    var rest := NewestFirst(unique, pending);
    forall i, j | 0 <= i < j < |rest| ensures unique[rest[i]].seqNo >= unique[rest[j]].seqNo {
      assert Newness(unique)(rest[i]) <= Newness(unique)(rest[j]);
      assert rest[i] in rest && rest[j] in rest;
    }
  }

  /** Trying sorted statements one at a time brings in the newest that fit. */
  lemma {:induction false} SinglyNewest(unique: Unique, c: Cutter, b: Budget, picks: seq<ItemKey>, rest: seq<ItemKey>)
    returns (adds: seq<ItemKey>)
    requires NewestSorted(unique, rest)
    ensures Singly(unique, c, b, picks, rest) == picks + adds && NewestThatFit(unique, c, b, picks, rest, adds)
    decreases |rest|
  {
    hide FitsWith, Fits, NewestThatFit;
    if rest == [] {
      adds := [];
      NothingToAdd(unique, c, b, picks);
    } else {
      var first, later := rest[0], rest[1..];
      SinglyUnfolds(unique, c, b, picks, rest);
      FitsIs(unique, c, b, picks, [first]);
      if FitsWith(unique, c, b, picks, [first]) {
        var more := SinglyNewest(unique, c, b, picks + [first], later);
        adds := [first] + more;
        FirstComesIn(unique, c, b, picks, rest, more);
        assert (picks + [first]) + more == picks + adds;
      } else {
        adds := SinglyNewest(unique, c, b, picks, later);
        FirstStaysOut(unique, c, b, picks, rest, adds);
      }
    }
  }

  lemma NothingToAdd(unique: Unique, c: Cutter, b: Budget, picks: seq<ItemKey>)
    ensures NewestThatFit(unique, c, b, picks, [], [])
  {}

  lemma NoneNewer(unique: Unique, rest: seq<ItemKey>, n: ItemKey)
    requires NewestSorted(unique, rest) && n in rest
    ensures n in unique && unique[n].seqNo <= unique[rest[0]].seqNo
  {
    var j :| 0 <= j < |rest| && rest[j] == n;
    if j > 0 { assert unique[rest[0]].seqNo >= unique[rest[j]].seqNo; }
  }

  lemma FirstComesIn(unique: Unique, c: Cutter, b: Budget, picks: seq<ItemKey>, rest: seq<ItemKey>, more: seq<ItemKey>)
    requires NewestSorted(unique, rest) && rest != [] && Fits(unique, c, b, picks + [rest[0]])
    requires NewestThatFit(unique, c, b, picks + [rest[0]], rest[1..], more)
    ensures NewestThatFit(unique, c, b, picks, rest, [rest[0]] + more)
  {
    var first, later, adds := rest[0], rest[1..], [rest[0]] + more;
    hide Fits, NoRoom, FitsUpTo;
    assert rest == [first] + later;
    forall n | n in more ensures unique[n].seqNo <= unique[first].seqNo {
      assert n in multiset(more) && n in multiset(later);
      NoneNewer(unique, rest, n);
    }
    FirstFits(unique, c, b, picks, first, more);
    forall n | Count(adds, n) < Count(rest, n) ensures NoRoom(unique, c, b, picks, adds, n) {
      assert Count(more, n) < Count(later, n);
      NoneNewer(unique, rest, n);
      NoRoomLater(unique, c, b, picks, first, more, n);
    }
  }

  lemma FirstFits(unique: Unique, c: Cutter, b: Budget, picks: seq<ItemKey>, first: ItemKey, more: seq<ItemKey>)
    requires Fits(unique, c, b, picks + [first])
    requires forall k :: 1 <= k <= |more| ==> FitsUpTo(unique, c, b, picks + [first], more, k)
    ensures forall k :: 1 <= k <= |more| + 1 ==> FitsUpTo(unique, c, b, picks, [first] + more, k)
  {
    var adds := [first] + more;
    hide Fits;
    forall k | 1 <= k <= |adds| ensures FitsUpTo(unique, c, b, picks, adds, k) {
      if k == 1 {
        assert adds[..1] == [first];
      } else {
        assert FitsUpTo(unique, c, b, picks + [first], more, k - 1);
        assert picks + adds[..k] == (picks + [first]) + more[..k-1];
      }
    }
  }

  lemma NoRoomLater(unique: Unique, c: Cutter, b: Budget, picks: seq<ItemKey>, first: ItemKey, more: seq<ItemKey>,
                    n: ItemKey)
    requires NoRoom(unique, c, b, picks + [first], more, n) && first in unique && n in unique
    requires unique[n].seqNo <= unique[first].seqNo
    ensures NoRoom(unique, c, b, picks, [first] + more, n)
  {
    var adds := [first] + more;
    hide Fits;
    var k :| 0 <= k <= |more| && NoRoomAfter(unique, c, b, picks + [first], more, n, k);
    assert picks + adds[..k+1] + [n] == (picks + [first]) + more[..k] + [n];
    assert NoRoomAfter(unique, c, b, picks, adds, n, k + 1);
  }

  lemma FirstStaysOut(unique: Unique, c: Cutter, b: Budget, picks: seq<ItemKey>, rest: seq<ItemKey>, adds: seq<ItemKey>)
    requires NewestSorted(unique, rest) && rest != [] && !Fits(unique, c, b, picks + [rest[0]])
    requires NewestThatFit(unique, c, b, picks, rest[1..], adds)
    ensures NewestThatFit(unique, c, b, picks, rest, adds)
  {
    var first, later := rest[0], rest[1..];
    hide Fits;
    assert rest == [first] + later;
    forall n | n in adds ensures unique[n].seqNo <= unique[first].seqNo {
      assert n in multiset(adds) && n in multiset(later);
      NoneNewer(unique, rest, n);
    }
    forall n | Count(adds, n) < Count(rest, n) ensures NoRoom(unique, c, b, picks, adds, n) {
      if Count(adds, n) >= Count(later, n) {
        assert n == first;
        assert picks + adds[..0] + [n] == picks + [first];
        assert NoRoomAfter(unique, c, b, picks, adds, n, 0);
      }
    }
  }

  lemma ConsiderDecides(links: Links, unique: Unique, c: Cutter, b: Budget, ch: Choice, key: ItemKey)
    requires key in unique && key !in ch.considered
    ensures Decision(links, unique, c, b, ch, key, Consider(links, unique, c, b, ch, key))
  {
    var newer := Newer(links, unique, key);
    var pending := NotIn(newer, Elements(ch.picks));
    hide *;
    NewerIs(links, unique, key);
    PendingIs(newer, ch.picks);
    PendingKnown(links, unique, key, ch.picks);
    PendingSorted(unique, pending);
    ConsiderCases(links, unique, c, b, ch, key);
    var adds := SinglyNewest(unique, c, b, ch.picks, NewestFirst(unique, pending));
    NewestOfSame(unique, c, b, ch.picks, NewestFirst(unique, pending), pending, adds);
    FitsIs(unique, c, b, ch.picks, [key] + pending);
    assert ch.picks + ([key] + pending) == ch.picks + [key] + pending;
    LeftOutIs(newer, ch, key);
    DecisionIs(links, unique, c, b, ch, key, newer, pending, adds, Consider(links, unique, c, b, ch, key));
  }

  lemma PendingKnown(links: Links, unique: Unique, key: ItemKey, picks: seq<ItemKey>)
    ensures key !in Newer(links, unique, key)
    ensures Known(unique, NotIn(Newer(links, unique, key), Elements(picks)))
  {
    NewerFacts(links, unique, key);
    NotInFacts(Newer(links, unique, key), Elements(picks));
    hide Newer, NotIn;
  }

  lemma LeftOutIs(newer: seq<ItemKey>, ch: Choice, key: ItemKey)
    requires key !in newer
    ensures (exists k :: k in newer && k in ch.considered + {key} && k !in Elements(ch.picks)) <==>
              SomeLeftOut(newer, ch)
  {}

  lemma DecisionIs(links: Links, unique: Unique, c: Cutter, b: Budget, ch: Choice, key: ItemKey, newer: seq<ItemKey>,
                   pending: seq<ItemKey>, adds: seq<ItemKey>, after: Choice)
    requires IsNewer(links, unique, key, newer) && IsPending(newer, ch.picks, pending)
    requires NewestThatFit(unique, c, b, ch.picks, pending, adds)
    requires after ==
             if SomeLeftOut(newer, ch) then ch.(considered := ch.considered + {key})
             else if Fits(unique, c, b, ch.picks + [key] + pending) then
               Choice(ch.picks + ([key] + pending), ch.considered + {key} + Elements(pending))
             else Choice(ch.picks + adds, ch.considered + {key} + Elements(pending))
    ensures Decision(links, unique, c, b, ch, key, after)
  {
    hide Fits, NewestThatFit, IsNewer, IsPending, SomeLeftOut;
    assert ch.picks + ([key] + pending) == ch.picks + [key] + pending;
    assert DecisionWith(unique, c, b, ch, key, newer, pending, after);
  }

  lemma NewestOfSame(unique: Unique, c: Cutter, b: Budget, picks: seq<ItemKey>, sorted: seq<ItemKey>,
                     pending: seq<ItemKey>, adds: seq<ItemKey>)
    requires NewestThatFit(unique, c, b, picks, sorted, adds) && multiset(sorted) == multiset(pending)
    ensures NewestThatFit(unique, c, b, picks, pending, adds)
  {
    hide Fits, NoRoom;
  }

  /** The choices after each key, from a given one on. */
  ghost function Choices(links: Links, unique: Unique, c: Cutter, b: Budget, order: seq<ItemKey>,
                         ch: Choice): (r: seq<Choice>)
    ensures |r| == |order| + 1 && r[0] == ch
    decreases |order|
  {
    if order == [] then [ch]
    else
      var next := if |ch.picks| >= b.messages || order[0] in ch.considered then ch
                  else Consider(links, unique, c, b, ch, order[0]);
      [ch] + Choices(links, unique, c, b, order[1..], next)
  }

  lemma {:induction false} ChoicesEnd(links: Links, unique: Unique, c: Cutter, b: Budget, order: seq<ItemKey>,
                                      ch: Choice)
    ensures var chs := Choices(links, unique, c, b, order, ch);
            chs[|order|].picks == PickFrom(links, unique, c, b, order, ch).picks
    decreases |order|
  {
    hide Consider;
    if order != [] {
      var next := if |ch.picks| >= b.messages || order[0] in ch.considered then ch
                  else Consider(links, unique, c, b, ch, order[0]);
      ChoicesEnd(links, unique, c, b, order[1..], next);
      if |ch.picks| < b.messages {
        PickUnfolds(links, unique, c, b, order, ch);
      } else {
        PickStops(links, unique, c, b, order, ch);
        PickStops(links, unique, c, b, order[1..], ch);
      }
    }
  }

  lemma {:induction false} ChoicesTurn(links: Links, unique: Unique, c: Cutter, b: Budget, order: seq<ItemKey>,
                                       ch: Choice, i: nat)
    requires i < |order| && Known(unique, order)
    ensures TurnAt(links, unique, c, b, order, Choices(links, unique, c, b, order, ch), i)
    decreases |order|
  {
    hide Consider, Decision;
    var next := if |ch.picks| >= b.messages || order[0] in ch.considered then ch
                else Consider(links, unique, c, b, ch, order[0]);
    assert order[0] in order;
    if i == 0 {
      if |ch.picks| < b.messages && order[0] !in ch.considered { ConsiderDecides(links, unique, c, b, ch, order[0]); }
    } else {
      assert forall k :: k in order[1..] ==> k in order;
      ChoicesTurn(links, unique, c, b, order[1..], next, i - 1);
    }
  }

  /** What the priority rule picks is decided in turn about the candidates, in the order of their first appearance. */
  lemma PicksAreDecided(links: Links, candidates: seq<Item>, c: Cutter, b: Budget)
    returns (at: seq<nat>, chs: seq<Choice>)
    ensures FirstAppearances(candidates, at) && KeysAt(candidates, at, OrderOf(candidates), UniqueOf(candidates))
    ensures DecidedInTurn(links, UniqueOf(candidates), c, b, OrderOf(candidates), chs)
    ensures PickFrom(links, UniqueOf(candidates), c, b, OrderOf(candidates), Choice([], {})).picks ==
            chs[|OrderOf(candidates)|].picks
  {
    at := CandidatesInOrder(candidates);
    var unique, order, start := UniqueOf(candidates), OrderOf(candidates), Choice([], {});
    OrderFacts(candidates);
    OrderKnown(order, unique);
    hide *;
    chs := Choices(links, unique, c, b, order, start);
    ChoicesEnd(links, unique, c, b, order, start);
    forall i | 0 <= i < |order| ensures TurnAt(links, unique, c, b, order, chs, i) {
      ChoicesTurn(links, unique, c, b, order, start, i);
    }
    TurnsDecide(links, unique, c, b, order, chs);
  }

  lemma TurnsDecide(links: Links, unique: Unique, c: Cutter, b: Budget, order: seq<ItemKey>, chs: seq<Choice>)
    requires |chs| == |order| + 1 && chs[0] == Choice([], {})
    requires forall i :: 0 <= i < |order| ==> TurnAt(links, unique, c, b, order, chs, i)
    ensures DecidedInTurn(links, unique, c, b, order, chs)
  {
    hide TurnAt;
  }

  // ---------------------------------------------------------------- the newest wins

  /** If each pending statement would fit alone, one with the greatest number of all comes in first. */
  lemma NewestWins(unique: Unique, c: Cutter, b: Budget, picks: seq<ItemKey>, pending: seq<ItemKey>, adds: seq<ItemKey>,
                   n: ItemKey)
    requires NewestThatFit(unique, c, b, picks, pending, adds) && n in pending
    requires forall x :: x in pending ==> x in unique && Fits(unique, c, b, picks + [x])
    ensures adds != [] && adds[0] in unique && unique[adds[0]].seqNo >= unique[n].seqNo
  {
    hide Fits;
    assert n in multiset(pending);
    if Count(adds, n) < Count(pending, n) {
      var k :| 0 <= k <= |adds| && NoRoomAfter(unique, c, b, picks, adds, n, k);
      assert picks + adds[..0] + [n] == picks + [n];
      assert k > 0;
    } else {
      assert n in multiset(adds);
      var j :| 0 <= j < |adds| && adds[j] == n;
      assert j > 0 ==> unique[adds[0]].seqNo >= unique[adds[j]].seqNo;
    }
  }

  /** With room for exactly one of them, it is the one with the greatest number. */
  lemma OneRoomForNewest(unique: Unique, c: Cutter, b: Budget, picks: seq<ItemKey>, pending: seq<ItemKey>,
                         adds: seq<ItemKey>)
    requires NewestThatFit(unique, c, b, picks, pending, adds) && pending != [] && b.messages == |picks| + 1
    requires forall x :: x in pending ==> x in unique && Fits(unique, c, b, picks + [x])
    ensures |adds| == 1 && adds[0] in pending && adds[0] in unique
    ensures forall n :: n in pending ==> unique[n].seqNo <= unique[adds[0]].seqNo
  {
    forall n | n in pending ensures adds != [] && adds[0] in unique && unique[n].seqNo <= unique[adds[0]].seqNo {
      NewestWins(unique, c, b, picks, pending, adds, n);
    }
    assert pending[0] in pending;
    assert adds[0] in multiset(adds) && adds[0] in multiset(pending);
    assert FitsUpTo(unique, c, b, picks, adds, |adds|);
    FitsCount(unique, c, b, picks + adds[..|adds|]);
  }

  lemma FitsCount(unique: Unique, c: Cutter, b: Budget, keys: seq<ItemKey>)
    requires Fits(unique, c, b, keys)
    ensures |keys| <= b.messages
  {
    hide Shown, Cut;
  }

  // ---------------------------------------------------------------- what the context shows

  /** The item shown is the candidate with its key, its excerpt cut around the query. */
  ghost predicate IsCutOf(unique: Unique, c: Cutter, i: Item) {
    var key := ItemKey(i.messageId, i.pointer);
    && key in unique && i.seqNo == unique[key].seqNo
    && i.excerpt == Relevance.Excerpt(c.lex, unique[key].excerpt, c.terms, c.window)
  }

  function KeysOf(items: seq<Item>): (r: seq<ItemKey>)
    ensures |r| == |items|
  {
    seq(|items|, j requires 0 <= j < |items| => ItemKey(items[j].messageId, items[j].pointer))
  }

  /** The positions of the picks whose excerpt was cut. */
  ghost function CutAt(unique: Unique, c: Cutter, picks: seq<ItemKey>): set<nat>
    requires Known(unique, picks)
  {
    set j: nat | j < |picks| && picks[j] in unique &&
                 |Relevance.Excerpt(c.lex, unique[picks[j]].excerpt, c.terms, c.window)| < |unique[picks[j]].excerpt|
  }

  /** The block shows the item: its message, the place in it, and its escaped excerpt. */
  ghost predicate ShowsItem(block: EvidenceBlock, i: Item) {
    block.id == i.messageId && block.pointer == i.pointer && block.excerpt == Escape(i.excerpt)
  }

  ghost predicate PlainItems(items: seq<Item>) {
    forall j :: 0 <= j < |items| ==> PlainLabel(items[j].messageId) && PlainLabel(items[j].pointer)
  }

  /** What is shown are the picks, cut, in conversation order, and the text reads back as exactly them. */
  lemma ContextTells(unique: Unique, c: Cutter, picks: seq<ItemKey>, ctx: Context)
    requires MadeFrom(unique, c, picks, ctx) && ctx.text == Render(Blocks(ctx.items)) && Keyed(unique)
    ensures multiset(KeysOf(ctx.items)) == multiset(picks) && ctx.truncated == |CutAt(unique, c, picks)|
    ensures forall j, k :: 0 <= j < k < |ctx.items| ==> ctx.items[j].seqNo <= ctx.items[k].seqNo
    ensures forall i :: i in ctx.items ==> IsCutOf(unique, c, i)
    ensures PlainItems(ctx.items) ==>
              && Parse(ctx.text).Some? && |Parse(ctx.text).value| == |ctx.items|
              && forall j :: 0 <= j < |ctx.items| ==> ShowsItem(Parse(ctx.text).value[j], ctx.items[j])
  {
    var cuts := Cuts(unique, c, picks);
    SortByFacts(BySeq(), cuts);
    CutsTell(unique, c, picks);
    hide Render, Parse, Relevance.Excerpt, Cut, Escape, SortBy, Shorter, Keyed;
    SameMultiset(ctx.items, cuts);
    KeysOfSame(ctx.items, cuts);
    CountedCuts(unique, c, picks);
    forall j, k | 0 <= j < k < |ctx.items| ensures ctx.items[j].seqNo <= ctx.items[k].seqNo {
      assert BySeq()(ctx.items[j]) <= BySeq()(ctx.items[k]);
    }
    hide IsCutOf, KeysOf, CutAt, Cuts;
    forall i | i in ctx.items ensures IsCutOf(unique, c, i) {
      var j :| 0 <= j < |cuts| && cuts[j] == i;
    }
    ReadsBack(ctx.items);
  }

  /** The text of plain items reads back as what they show. */
  lemma ReadsBack(items: seq<Item>)
    ensures PlainItems(items) ==>
              var parsed := Parse(Render(Blocks(items)));
              && parsed.Some? && |parsed.value| == |items|
              && forall j :: 0 <= j < |items| ==> ShowsItem(parsed.value[j], items[j])
  {
    hide Render, Parse, Escape;
    if PlainItems(items) { RenderRoundTrip(Blocks(items)); }
  }

  lemma CutsTell(unique: Unique, c: Cutter, picks: seq<ItemKey>)
    requires Known(unique, picks) && Keyed(unique)
    ensures var cuts := Cuts(unique, c, picks);
            && KeysOf(cuts) == picks && forall j :: 0 <= j < |cuts| ==> IsCutOf(unique, c, cuts[j])
  {
    var cuts := Cuts(unique, c, picks);
    forall j | 0 <= j < |picks| ensures KeysOf(cuts)[j] == picks[j] && IsCutOf(unique, c, cuts[j]) {
      assert picks[j] in picks;
      assert KeyOf(unique[picks[j]]) == picks[j];
    }
  }

  lemma {:induction false} KeysOfSame(a: seq<Item>, b: seq<Item>)
    requires multiset(a) == multiset(b)
    ensures multiset(KeysOf(a)) == multiset(KeysOf(b))
    decreases |a|
  {
    SameMultiset(a, b);
    if a == [] {
      assert b == [];
    } else {
      var n := |a| - 1;
      assert a[n] in a;
      var j: nat :| j < |b| && b[j] == a[n];
      hide *;
      OneTaken(a, n);
      OneTaken(b, j);
      KeysOfSame(RemoveAt(a, n), RemoveAt(b, j));
    }
  }

  lemma OneTaken(items: seq<Item>, j: nat)
    requires j < |items|
    ensures |RemoveAt(items, j)| == |items| - 1
    ensures multiset(RemoveAt(items, j)) == multiset(items) - multiset{items[j]}
    ensures multiset(KeysOf(items)) ==
            multiset(KeysOf(RemoveAt(items, j))) + multiset{ItemKey(items[j].messageId, items[j].pointer)}
  {
    TakeOut(items, j);
    TakeOut(KeysOf(items), j);
    KeysOfTake(items, j);
    hide KeysOf, RemoveAt;
    assert KeysOf(items)[j] in KeysOf(items);
  }

  lemma KeysOfTake(items: seq<Item>, j: nat)
    requires j < |items|
    ensures KeysOf(RemoveAt(items, j)) == RemoveAt(KeysOf(items), j)
    ensures KeysOf(items)[j] == ItemKey(items[j].messageId, items[j].pointer)
  {}

  lemma {:induction false} CountedCuts(unique: Unique, c: Cutter, picks: seq<ItemKey>)
    requires Known(unique, picks)
    ensures Shorter(unique, c, picks) == |CutAt(unique, c, picks)|
  {
    if picks != [] {
      var n := |picks| - 1;
      assert picks[n] in picks;
      CutAtSnoc(unique, c, picks);
      hide Relevance.Excerpt, CutAt;
      CountedCuts(unique, c, picks[..n]);
    }
  }

  lemma CutAtSnoc(unique: Unique, c: Cutter, picks: seq<ItemKey>)
    requires Known(unique, picks) && picks != [] && picks[|picks|-1] in unique
    ensures var n := |picks| - 1;
            var e := unique[picks[n]].excerpt;
            && Known(unique, picks[..n])
            && |CutAt(unique, c, picks)| == |CutAt(unique, c, picks[..n])| +
                 (if |Relevance.Excerpt(c.lex, e, c.terms, c.window)| < |e| then 1 else 0)
  {
    var n := |picks| - 1;
    var e := unique[picks[n]].excerpt;
    hide Relevance.Excerpt;
    var more := if |Relevance.Excerpt(c.lex, e, c.terms, c.window)| < |e| then {n} else {};
    forall j: nat ensures j in CutAt(unique, c, picks) <==> j in CutAt(unique, c, picks[..n]) || j in more {
      if j < n { assert picks[..n][j] == picks[j]; }
    }
    assert CutAt(unique, c, picks) == CutAt(unique, c, picks[..n]) + more;
    assert n !in CutAt(unique, c, picks[..n]);
  }
}
