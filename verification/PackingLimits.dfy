/** For which link tables the packer keeps its promises: exact conditions, and inputs where they fail. */
module PackingLimits {
  import opened Wrappers
  import opened Sequences
  import opened Rendering
  import opened Packing

  /** An order in which the candidates' keys may come. */
  ghost predicate Arranges(order: seq<ItemKey>, unique: Unique) {
    NoDup(order) && Elements(order) == unique.Keys
  }

  /** What the packer picks in all. */
  function Picks(links: Links, unique: Unique, c: Cutter, b: Budget, order: seq<ItemKey>): seq<ItemKey> {
    PickFrom(links, unique, c, b, order, Choice([], {})).picks
  }

  lemma {:induction false} Listed(keys: set<ItemKey>) returns (order: seq<ItemKey>)
    ensures NoDup(order) && Elements(order) == keys
    decreases |keys|
  {
    if keys == {} {
      order := [];
    } else {
      var k :| k in keys;
      var rest := Listed(keys - {k});
      order := [k] + rest;
      assert k !in rest by { assert k !in Elements(rest); }
      NoDupCons(k, rest);
      ElementsConcat([k], rest);
    }
  }

  lemma OrderFrom(unique: Unique, key: ItemKey) returns (order: seq<ItemKey>)
    requires key in unique
    ensures Arranges(order, unique) && order != [] && order[0] == key
  {
    var rest := Listed(unique.Keys - {key});
    order := [key] + rest;
    assert key !in rest by { assert key !in Elements(rest); }
    NoDupCons(key, rest);
    ElementsConcat([key], rest);
    hide NoDup, Elements;
  }

  lemma {:induction false} NotInNothing(keys: seq<ItemKey>)
    ensures NotIn(keys, {}) == keys
  {
    if keys != [] {
      NotInNothing(keys[..|keys|-1]);
      assert keys == keys[..|keys|-1] + [keys[|keys|-1]];
    }
  }

  lemma FirstDecision(links: Links, unique: Unique, c: Cutter, b: Budget, key: ItemKey)
    ensures var newer := Newer(links, unique, key);
            Consider(links, unique, c, b, Choice([], {}), key).picks ==
              if FitsWith(unique, c, b, [], [key] + newer) then [key] + newer
              else Singly(unique, c, b, [], NewestFirst(unique, newer))
  {
    NewerFacts(links, unique, key);
    ConsiderCases(links, unique, c, b, Choice([], {}), key);
    NotInNothing(Newer(links, unique, key));
    assert Elements<ItemKey>([]) == {};
    hide Newer, FitsWith, Singly, NewestFirst, NotIn;
  }

  /** When the first decision fills the message limit, it is the last. */
  lemma FirstFills(links: Links, unique: Unique, c: Cutter, b: Budget, order: seq<ItemKey>)
    requires order != [] && 0 < b.messages <= |Consider(links, unique, c, b, Choice([], {}), order[0]).picks|
    ensures Picks(links, unique, c, b, order) == Consider(links, unique, c, b, Choice([], {}), order[0]).picks
  {
    hide Consider;
    PickUnfolds(links, unique, c, b, order, Choice([], {}));
    PickStops(links, unique, c, b, order[1..], Consider(links, unique, c, b, Choice([], {}), order[0]));
  }

  /** A budget with just enough room for these keys. */
  function RoomFor(unique: Unique, c: Cutter, keys: seq<ItemKey>): Budget
    requires Known(unique, keys)
  {
    Budget(|keys|, |Shown(Cuts(unique, c, keys))|, None)
  }

  lemma GroupKeys(links: Links, unique: Unique, key: ItemKey)
    requires key in unique
    ensures Known(unique, [key] + Newer(links, unique, key))
  {
    NewerFacts(links, unique, key);
    hide Newer;
  }

  /** With just enough room for a key and its newer statements, they are what is picked when it comes first. */
  lemma GroupPicked(links: Links, unique: Unique, c: Cutter, order: seq<ItemKey>)
    requires order != [] && order[0] in unique
    ensures Known(unique, [order[0]] + Newer(links, unique, order[0]))
    ensures var group := [order[0]] + Newer(links, unique, order[0]);
            Picks(links, unique, c, RoomFor(unique, c, group), order) == group
  {
    GroupKeys(links, unique, order[0]);
    var group := [order[0]] + Newer(links, unique, order[0]);
    var b := RoomFor(unique, c, group);
    RoomFits(unique, c, group);
    hide Newer, Shown, Cut, Consider;
    FirstDecision(links, unique, c, b, order[0]);
    FirstFills(links, unique, c, b, order);
  }

  lemma RoomFits(unique: Unique, c: Cutter, keys: seq<ItemKey>)
    requires Known(unique, keys)
    ensures FitsWith(unique, c, RoomFor(unique, c, keys), [], keys)
  {
    hide Shown, Cut;
    assert Cuts(unique, c, []) == [];
    assert [] + Cuts(unique, c, keys) == Cuts(unique, c, keys);
  }

  // ---------------------------------------------------------------- every key once

  /** A link list that repeats a statement gets it shown twice. */
  lemma RepeatIsShownTwice(links: Links, unique: Unique, c: Cutter) returns (order: seq<ItemKey>, b: Budget)
    requires !NoRepeats(links, unique)
    ensures Arranges(order, unique) && !NoDup(Picks(links, unique, c, b, order))
  {
    var key :| key in unique && !NoDup(Newer(links, unique, key));
    hide Picks, Newer, NoDup, RoomFor;
    order := OrderFrom(unique, key);
    GroupPicked(links, unique, c, order);
    b := RoomFor(unique, c, [key] + Newer(links, unique, key));
    NoDupCons(key, Newer(links, unique, key));
  }

  /** The packer shows every key at most once, whatever the order and the budget, exactly when no link repeats. */
  lemma KeysOnceExactly(links: Links, unique: Unique, c: Cutter)
    ensures NoRepeats(links, unique) <==>
            forall order, b :: Arranges(order, unique) ==> NoDup(Picks(links, unique, c, b, order))
  {
    if NoRepeats(links, unique) {
      forall order, b | Arranges(order, unique) ensures NoDup(Picks(links, unique, c, b, order)) {
        hide NoRepeats, NoDup;
        PicksAreSound(links, unique, c, b, order);
      }
    } else {
      var order, b := RepeatIsShownTwice(links, unique, c);
    }
  }

  // ---------------------------------------------------------------- no source without its newer statements

  /**
   * A chain of links is cut where the budget ends: with room for a statement and its newer ones only, a
   * newer one is shown without a still newer one of its own.
   */
  lemma ChainIsCut(links: Links, unique: Unique, c: Cutter, k: ItemKey, t: ItemKey, u: ItemKey)
    returns (order: seq<ItemKey>, b: Budget)
    requires k in unique && t in Newer(links, unique, k) && u in Newer(links, unique, t)
    requires u != k && u !in Newer(links, unique, k)
    ensures Arranges(order, unique) && b.tokens.None? && !Protected(links, unique, Picks(links, unique, c, b, order))
  {
    hide Picks, Newer, RoomFor;
    order := OrderFrom(unique, k);
    GroupPicked(links, unique, c, order);
    var group := [k] + Newer(links, unique, k);
    b := RoomFor(unique, c, group);
    assert t in group && u !in group;
    NoTokens(unique, c, group);
  }

  lemma NoTokens(unique: Unique, c: Cutter, keys: seq<ItemKey>)
    requires Known(unique, keys)
    ensures RoomFor(unique, c, keys).tokens.None?
  {}

  /** A message, a correction of it, and a correction of that, linked one to the next. */
  lemma ChainWitness(c: Cutter) returns (candidates: seq<Item>, links: Links, b: Budget)
    ensures b.messages == 2 && b.tokens.None? && |candidates| == 3
    ensures var unique := UniqueOf(candidates);
            var picks := Picks(links, unique, c, b, OrderOf(candidates));
            && KeyOf(candidates[1]) in picks && KeyOf(candidates[2]) !in picks
            && KeyOf(candidates[2]) in Newer(links, unique, KeyOf(candidates[1]))
  {
    var x, y, z := Item("x", 1, "/content", "noon"), Item("y", 2, "/content", "one"), Item("z", 3, "/content", "two");
    candidates := [x, y, z];
    links := map[KeyOf(x) := [KeyOf(y)], KeyOf(y) := [KeyOf(z)]];
    var unique, order := UniqueOf(candidates), OrderOf(candidates);
    ThreeKeys(x, y, z);
    OneLink(links, unique, KeyOf(x), KeyOf(y));
    OneLink(links, unique, KeyOf(y), KeyOf(z));
    hide Picks, Newer, Shown, Cut, UniqueOf, OrderOf;
    GroupPicked(links, unique, c, order);
    var group := [KeyOf(x)] + [KeyOf(y)];
    b := RoomFor(unique, c, group);
    assert Picks(links, unique, c, b, order) == group;
    assert group == [KeyOf(x), KeyOf(y)];
  }

  lemma ThreeKeys(x: Item, y: Item, z: Item)
    requires KeyOf(x) != KeyOf(y) && KeyOf(y) != KeyOf(z) && KeyOf(x) != KeyOf(z)
    ensures UniqueOf([x, y, z]) == map[KeyOf(x) := x, KeyOf(y) := y, KeyOf(z) := z]
    ensures OrderOf([x, y, z]) == [KeyOf(x), KeyOf(y), KeyOf(z)]
  {
    assert [x, y, z][..2] == [x, y] && [x, y][..1] == [x] && [x][..0] == [];
    assert UniqueOf([x]) == map[KeyOf(x) := x] && OrderOf([x]) == [KeyOf(x)];
    assert UniqueOf([x, y]) == map[KeyOf(x) := x, KeyOf(y) := y] && OrderOf([x, y]) == [KeyOf(x), KeyOf(y)];
  }

  lemma OneLink(links: Links, unique: Unique, k: ItemKey, t: ItemKey)
    requires k in links && links[k] == [t] && t in unique && t != k
    ensures Newer(links, unique, k) == [t]
  {
    assert [t][..0] == [];
    assert Available([], unique, k) == [];
  }

  /** Identifiers and pointers as the store makes them: without spaces or line breaks. */
  ghost predicate PlainKeys(unique: Unique) {
    forall k :: k in unique ==> KeyOf(unique[k]) == k && PlainLabel(k.messageId) && PlainLabel(k.pointer)
  }

  function AloneText(unique: Unique, c: Cutter, k: ItemKey): string
    requires k in unique
  {
    Shown([Cut(c, unique[k])])
  }

  /** Shown alone, different items give different texts. */
  lemma AloneTellsApart(unique: Unique, c: Cutter, k: ItemKey, t: ItemKey)
    requires PlainKeys(unique) && k in unique && t in unique && AloneText(unique, c, k) == AloneText(unique, c, t)
    ensures k == t
  {
    ReadsAlone(unique, c, k);
    ReadsAlone(unique, c, t);
  }

  lemma ReadsAlone(unique: Unique, c: Cutter, k: ItemKey)
    requires PlainKeys(unique) && k in unique
    ensures Parse(AloneText(unique, c, k)).Some? && |Parse(AloneText(unique, c, k)).value| == 1
    ensures var block := Parse(AloneText(unique, c, k)).value[0]; ItemKey(block.id, block.pointer) == k
  {
    var item := Cut(c, unique[k]);
    assert SortBy(BySeq(), [item]) == [item];
    assert KeyOf(unique[k]) == k && item.messageId == k.messageId && item.pointer == k.pointer;
    hide Parse, Render, Escape, SortBy, Cut;
    RenderRoundTrip(Blocks([item]));
  }

  /** A budget for one message, whose token counter lets only this text through. */
  function RoomForOnly(text: string): Budget {
    Budget(1, |text|, Some(TokenLimit(1, other => if other == text then 0 else 2)))
  }

  lemma OneAtATime(unique: Unique, c: Cutter, t: ItemKey, k: ItemKey)
    requires PlainKeys(unique) && k in unique && t in unique
    ensures FitsWith(unique, c, RoomForOnly(AloneText(unique, c, t)), [], [k]) <==> k == t
  {
    assert Cuts(unique, c, []) == [] && Cuts(unique, c, [k]) == [Cut(c, unique[k])];
    assert [] + [Cut(c, unique[k])] == [Cut(c, unique[k])];
    if k != t && AloneText(unique, c, k) == AloneText(unique, c, t) { AloneTellsApart(unique, c, k, t); assert false; }
    hide Shown, Cut;
  }

  lemma NoTwo(unique: Unique, c: Cutter, text: string, picks: seq<ItemKey>, keys: seq<ItemKey>)
    requires |picks| + |keys| > 1
    ensures !FitsWith(unique, c, RoomForOnly(text), picks, keys)
  {
    hide Shown, Cut;
  }

  lemma {:induction false} NoMore(unique: Unique, c: Cutter, text: string, t: ItemKey, rest: seq<ItemKey>)
    ensures Singly(unique, c, RoomForOnly(text), [t], rest) == [t]
    decreases |rest|
  {
    if rest != [] {
      NoTwo(unique, c, text, [t], [rest[0]]);
      hide FitsWith;
      NoMore(unique, c, text, t, rest[1..]);
    }
  }

  /** Tried one at a time under that budget, only that item comes in. */
  lemma {:induction false} OnlyThatOne(unique: Unique, c: Cutter, t: ItemKey, rest: seq<ItemKey>)
    requires PlainKeys(unique) && t in unique && t in rest && Known(unique, rest)
    ensures Singly(unique, c, RoomForOnly(AloneText(unique, c, t)), [], rest) == [t]
    decreases |rest|
  {
    var b := RoomForOnly(AloneText(unique, c, t));
    assert rest[0] in rest;
    OneAtATime(unique, c, t, rest[0]);
    SinglyUnfolds(unique, c, b, [], rest);
    hide FitsWith, Singly, RoomForOnly, AloneText, PlainKeys;
    if rest[0] == t {
      assert [] + [t] == [t];
      NoMore(unique, c, AloneText(unique, c, t), t, rest[1..]);
    } else {
      assert rest == [rest[0]] + rest[1..];
      OnlyThatOne(unique, c, t, rest[1..]);
    }
  }

  /** With more than one level of links some order and budget show a statement without an available newer one. */
  lemma DeepLinkIsCut(links: Links, unique: Unique, c: Cutter) returns (order: seq<ItemKey>, b: Budget)
    requires PlainKeys(unique) && !OneLevel(links, unique)
    ensures Arranges(order, unique) && !Protected(links, unique, Picks(links, unique, c, b, order))
  {
    var k, t :| k in unique && t in Newer(links, unique, k) && Newer(links, unique, t) != [];
    var newer, u := Newer(links, unique, k), Newer(links, unique, t)[0];
    NewerFacts(links, unique, k);
    NewerFacts(links, unique, t);
    assert u in Newer(links, unique, t) && u != t;
    hide *;
    order := OrderFrom(unique, k);
    b := RoomForOnly(AloneText(unique, c, t));
    FirstDecision(links, unique, c, b, k);
    NoTwo(unique, c, AloneText(unique, c, t), [], [k] + newer);
    NewestFacts(unique, newer);
    KnownSame(unique, newer, NewestFirst(unique, newer));
    OnlyThatOne(unique, c, t, NewestFirst(unique, newer));
    RoomForOne(AloneText(unique, c, t));
    FirstFills(links, unique, c, b, order);
    ShownAlone(links, unique, t, u);
  }

  lemma RoomForOne(text: string)
    ensures RoomForOnly(text).messages == 1
  {}

  lemma KnownSame(unique: Unique, keys: seq<ItemKey>, sorted: seq<ItemKey>)
    requires (forall k :: k in keys ==> k in unique) && forall k :: k in sorted <==> k in keys
    ensures Known(unique, sorted)
  {}

  lemma ShownAlone(links: Links, unique: Unique, t: ItemKey, u: ItemKey)
    requires u in Newer(links, unique, t) && u != t
    ensures !Protected(links, unique, [t])
  {
    hide Newer;
    assert t in [t] && u !in [t];
  }

  /** Whatever the order and the budget, no source is shown without all of its available newer statements. */
  ghost predicate AlwaysProtected(links: Links, unique: Unique, c: Cutter) {
    forall order, b :: Arranges(order, unique) ==> Protected(links, unique, Picks(links, unique, c, b, order))
  }

  /**
   * The packer always shows a source with its newer statements exactly when links have one level: a newer
   * statement has no newer one of its own.
   */
  lemma ProtectedExactly(links: Links, unique: Unique, c: Cutter)
    requires PlainKeys(unique)
    ensures OneLevel(links, unique) <==> AlwaysProtected(links, unique, c)
  {
    hide *;
    if OneLevel(links, unique) {
      OneLevelSuffices(links, unique, c);
    } else {
      OneLevelNeeded(links, unique, c);
    }
  }

  lemma OneLevelSuffices(links: Links, unique: Unique, c: Cutter)
    requires OneLevel(links, unique)
    ensures AlwaysProtected(links, unique, c)
  {
    hide OneLevel, Protected, Arranges, Picks;
    forall order, b | Arranges(order, unique) ensures Protected(links, unique, Picks(links, unique, c, b, order)) {
      OneLevelProtects(links, unique, c, order, b);
    }
  }

  lemma OneLevelNeeded(links: Links, unique: Unique, c: Cutter)
    requires PlainKeys(unique) && !OneLevel(links, unique)
    ensures !AlwaysProtected(links, unique, c)
  {
    hide OneLevel, Protected, Arranges, Picks;
    var order, b := DeepLinkIsCut(links, unique, c);
  }

  lemma OneLevelProtects(links: Links, unique: Unique, c: Cutter, order: seq<ItemKey>, b: Budget)
    requires OneLevel(links, unique) && Arranges(order, unique)
    ensures Protected(links, unique, Picks(links, unique, c, b, order))
  {
    hide OneLevel, Protected;
    PicksAreSound(links, unique, c, b, order);
  }

  // ---------------------------------------------------------------- the token limit on the final text

  /** These picks can be shown, and are within the limits unless there are none. */
  ghost predicate InLimits(unique: Unique, c: Cutter, b: Budget, picks: seq<ItemKey>) {
    Known(unique, picks) && (picks != [] ==> Allowed(b, Cuts(unique, c, picks)))
  }

  lemma AddedInLimits(unique: Unique, c: Cutter, b: Budget, picks: seq<ItemKey>, keys: seq<ItemKey>)
    requires FitsWith(unique, c, b, picks, keys)
    ensures InLimits(unique, c, b, picks + keys)
  {
    hide Allowed, Cut;
    CutsConcat(unique, c, picks, keys);
  }

  lemma {:induction false} SinglyInLimits(unique: Unique, c: Cutter, b: Budget, picks: seq<ItemKey>, rest: seq<ItemKey>)
    requires InLimits(unique, c, b, picks)
    ensures InLimits(unique, c, b, Singly(unique, c, b, picks, rest))
    decreases |rest|
  {
    hide InLimits, FitsWith;
    if rest != [] {
      if FitsWith(unique, c, b, picks, [rest[0]]) {
        AddedInLimits(unique, c, b, picks, [rest[0]]);
        SinglyInLimits(unique, c, b, picks + [rest[0]], rest[1..]);
      } else {
        SinglyInLimits(unique, c, b, picks, rest[1..]);
      }
    }
  }

  lemma {:induction false} PicksInLimits(links: Links, unique: Unique, c: Cutter, b: Budget, order: seq<ItemKey>,
                                         ch: Choice)
    requires InLimits(unique, c, b, ch.picks)
    ensures InLimits(unique, c, b, PickFrom(links, unique, c, b, order, ch).picks)
    decreases |order|
  {
    hide InLimits, FitsWith, Consider, Singly, NotIn, Newer, NewestFirst;
    if order != [] && |ch.picks| < b.messages {
      var next := Consider(links, unique, c, b, ch, order[0]);
      var pending := NotIn(Newer(links, unique, order[0]), Elements(ch.picks));
      ConsiderCases(links, unique, c, b, ch, order[0]);
      if FitsWith(unique, c, b, ch.picks, [order[0]] + pending) {
        AddedInLimits(unique, c, b, ch.picks, [order[0]] + pending);
      }
      SinglyInLimits(unique, c, b, ch.picks, NewestFirst(unique, pending));
      PicksInLimits(links, unique, c, b, order[1..], if order[0] in ch.considered then ch else next);
    }
  }

  /** The text shown for these candidates stays within the token limit. */
  ghost predicate TokensKept(links: Links, c: Cutter, b: Budget, candidates: seq<Item>) {
    var unique := UniqueOf(candidates);
    var picks := Picks(links, unique, c, b, OrderOf(candidates));
    && Known(unique, picks)
    && (b.tokens.Some? ==> b.tokens.value.count(Shown(Cuts(unique, c, picks))) <= b.tokens.value.most)
  }

  /** The final text is always within the token limit exactly when the empty text is. */
  lemma TokensExactly(links: Links, c: Cutter, b: Budget)
    requires b.tokens.Some?
    ensures b.tokens.value.count("") <= b.tokens.value.most <==>
            forall candidates :: TokensKept(links, c, b, candidates)
  {
    NothingShown(c);
    if b.tokens.value.count("") <= b.tokens.value.most {
      forall candidates ensures TokensKept(links, c, b, candidates) {
        var unique := UniqueOf(candidates);
        assert InLimits(unique, c, b, []);
        hide UniqueOf, OrderOf, Shown, PickFrom;
        PicksInLimits(links, unique, c, b, OrderOf(candidates), Choice([], {}));
        EmptyCuts(unique, c);
      }
    } else {
      assert UniqueOf([]) == map[] && OrderOf([]) == [];
      EmptyCuts(map[], c);
      assert !TokensKept(links, c, b, []);
    }
  }

  lemma EmptyCuts(unique: Unique, c: Cutter)
    ensures Cuts(unique, c, []) == []
  {}

  lemma NothingShown(c: Cutter)
    ensures Shown([]) == ""
  {}
}
