/**
 * Planning again over a published forest.  Unchanged branches keep their parents; one later leaf costs
 * at most one new parent per layer; the same leaves give back the same table.
 */
module HierarchyReuse {
  import opened Wrappers
  import opened Sequences
  import opened Hierarchy
  import opened HierarchyForest

  // ---------------------------------------------------------------- the layers of a published table

  /** The layer above `layer`, read from the table: the parent of each group, or the single node left over. */
  function Above(nodes: map<Id, Node>, layer: seq<Id>, m: nat): (r: seq<Id>)
    requires 2 <= m
    ensures |r| == Width(|layer|, m)
    decreases |layer|
  {
    if |layer| <= 1 then layer
    else
      var g := Head(layer, m);
      var p := if g[0] in nodes && nodes[g[0]].parent.Some? then nodes[g[0]].parent.value else g[0];
      [p] + Above(nodes, Rest(layer, m), m)
  }

  /** Every group of two or more in `layer` is exactly some parent's child list. */
  ghost predicate Grouped(nodes: map<Id, Node>, kids: map<Id, seq<Id>>, layer: seq<Id>, m: nat)
    requires 2 <= m
    decreases |layer|
  {
    |layer| >= 2 ==>
      var g := Head(layer, m);
      && g[0] in nodes && nodes[g[0]].parent.Some?
      && nodes[g[0]].parent.value in kids && kids[nodes[g[0]].parent.value] == g
      && Grouped(nodes, kids, Rest(layer, m), m)
  }

  /** The table was built over `layer` with fan-out `m`, up to `top`, and holds nothing else. */
  ghost predicate Layered(nodes: map<Id, Node>, kids: map<Id, seq<Id>>, layer: seq<Id>, top: seq<Id>, m: nat)
    requires 2 <= m
    decreases |layer|
  {
    if |layer| <= m then top == layer
    else
      WidthShrinks(|layer|, m);
      Grouped(nodes, kids, layer, m) && Layered(nodes, kids, Above(nodes, layer, m), top, m)
  }

  /** Every node met on the way up from `layer`. */
  ghost function Reached(nodes: map<Id, Node>, layer: seq<Id>, m: nat): set<Id>
    requires 2 <= m
    decreases |layer|
  {
    if |layer| <= m then Elements(layer)
    else
      WidthShrinks(|layer|, m);
      Elements(layer) + Reached(nodes, Above(nodes, layer, m), m)
  }

  /** `reusable` is the child-list index of the table `nodes`. */
  ghost predicate Mirrors(reusable: Families, nodes: map<Id, Node>, kids: map<Id, seq<Id>>) {
    && (forall g :: g in reusable ==>
          reusable[g].id in kids && reusable[g].id in nodes && kids[reusable[g].id] == g
            && reusable[g] == nodes[reusable[g].id])
    && (forall q :: q in kids ==> kids[q] in reusable && q in nodes && reusable[kids[q]] == nodes[q])
  }

  // ---------------------------------------------------------------- every plan is layered

  lemma {:induction false} GroupLayerLayers(s: Source, d: Draft, pre: seq<Id>, layer: seq<Id>, m: nat, revision: nat,
                                            nodes: map<Id, Node>, kids: map<Id, seq<Id>>)
    requires 2 <= m && Reliable(s) && Sound(s, d, pre + layer, m) && Covers(d.nodes, layer)
    requires Extends(GroupLayer(d, layer, m, s.reusable, revision).draft.kids, kids) && AllKeep(nodes, kids)
    ensures var r := GroupLayer(d, layer, m, s.reusable, revision);
            Grouped(nodes, kids, layer, m) && Above(nodes, layer, m) == r.layer
    decreases |layer|
  {
    hide Sound, Reliable, Join, ParentFor, GroupLayer, Head, Rest, AllKeep, Grouped, Above;
    GroupLayerCases(d, layer, m, s.reusable, revision);
    if |layer| < 2 {
      GroupedSmall(nodes, kids, layer, m);
    } else {
      var g, rest := Head(layer, m), Rest(layer, m);
      assert pre + layer == pre + g + rest;
      JoinSound(s, d, pre, g, rest, m, revision);
      var p := ParentFor(d, g, s.reusable, revision).id;
      var e := Join(d, g, s.reusable, revision);
      GroupLayerSound(s, e, pre + [p], rest, m, revision);
      GroupLayerLayers(s, e, pre + [p], rest, m, revision, nodes, kids);
      assert p in e.kids && e.kids[p] == g;
      KeepsFirst(nodes, kids, p);
      GroupedCons(nodes, kids, layer, m, p);
    }
  }

  /** A layer step adds the nodes of the next layer and nothing else. */
  lemma {:induction false} GroupLayerAdds(d: Draft, layer: seq<Id>, m: nat, reusable: Families, revision: nat)
    requires 2 <= m && Covers(d.nodes, layer)
    ensures var r := GroupLayer(d, layer, m, reusable, revision);
            r.draft.nodes.Keys == d.nodes.Keys + Elements(r.layer)
    decreases |layer|
  {
    hide ParentFor, GroupLayer, Head, Rest;
    GroupLayerCases(d, layer, m, reusable, revision);
    if |layer| < 2 {
      assert Elements(layer) <= d.nodes.Keys;
    } else {
      var g, rest := Head(layer, m), Rest(layer, m);
      var p := ParentFor(d, g, reusable, revision).id;
      var e := Join(d, g, reusable, revision);
      assert e.nodes.Keys == d.nodes.Keys + {p};
      hide Join;
      GroupLayerAdds(e, rest, m, reusable, revision);
      var tail := GroupLayer(e, rest, m, reusable, revision);
      assert Elements([p] + tail.layer) == {p} + Elements(tail.layer);
    }
  }

  lemma GroupedSmall(nodes: map<Id, Node>, kids: map<Id, seq<Id>>, layer: seq<Id>, m: nat)
    requires 2 <= m && |layer| < 2
    ensures Grouped(nodes, kids, layer, m) && Above(nodes, layer, m) == layer
  {}

  lemma GroupedCons(nodes: map<Id, Node>, kids: map<Id, seq<Id>>, layer: seq<Id>, m: nat, p: Id)
    requires 2 <= m && 2 <= |layer|
    requires var g := Head(layer, m); g[0] in nodes && nodes[g[0]].parent == Some(p) && p in kids && kids[p] == g
    requires Grouped(nodes, kids, Rest(layer, m), m)
    ensures Grouped(nodes, kids, layer, m) && Above(nodes, layer, m) == [p] + Above(nodes, Rest(layer, m), m)
  {}

  lemma GroupedUncons(nodes: map<Id, Node>, kids: map<Id, seq<Id>>, layer: seq<Id>, m: nat) returns (p: Id)
    requires 2 <= m && 2 <= |layer| && Grouped(nodes, kids, layer, m)
    ensures var g := Head(layer, m);
            g != [] && g[0] in nodes && nodes[g[0]].parent == Some(p) && p in kids && kids[p] == g
    ensures Grouped(nodes, kids, Rest(layer, m), m)
    ensures Above(nodes, layer, m) == [p] + Above(nodes, Rest(layer, m), m)
  {
    p := nodes[Head(layer, m)[0]].parent.value;
  }

  lemma KeepsFirst(nodes: map<Id, Node>, kids: map<Id, seq<Id>>, q: Id)
    requires AllKeep(nodes, kids) && q in kids
    ensures |kids[q]| >= 2 && kids[q][0] in nodes && nodes[kids[q][0]].parent == Some(q)
  {
    assert Keeps(nodes, kids, q);
  }

  lemma {:induction false} ClimbLayers(s: Source, d: Draft, layer: seq<Id>, m: nat, revision: nat,
                                       nodes: map<Id, Node>, kids: map<Id, seq<Id>>)
    requires 2 <= m && Reliable(s) && Sound(s, d, layer, m) && Covers(d.nodes, layer)
    requires Extends(Climb(d, layer, m, s.reusable, revision).draft.kids, kids) && AllKeep(nodes, kids)
    ensures var r := Climb(d, layer, m, s.reusable, revision);
            && Layered(nodes, kids, layer, r.layer, m)
            && r.draft.nodes.Keys == d.nodes.Keys + Reached(nodes, layer, m)
    decreases |layer|
  {
    LayerKnown(d, layer);
    if |layer| <= m {
      ClimbCases(d, layer, m, s.reusable, revision);
      LayeredCases(nodes, kids, layer, layer, m);
      hide *;
    } else {
      WidthShrinks(|layer|, m);
      var up := GroupLayer(d, layer, m, s.reusable, revision);
      hide *;
      ClimbCases(d, layer, m, s.reusable, revision);
      LayerStep(s, d, layer, m, revision, nodes, kids);
      ClimbLayers(s, up.draft, up.layer, m, revision, nodes, kids);
      LayeredCases(nodes, kids, layer, Climb(d, layer, m, s.reusable, revision).layer, m);
      ReachedIncludes(nodes, up.layer, m);
      KeysAdd(d.nodes.Keys, Elements(layer), Elements(up.layer), Reached(nodes, up.layer, m));
    }
  }

  lemma LayerKnown(d: Draft, layer: seq<Id>)
    requires Covers(d.nodes, layer)
    ensures Elements(layer) <= d.nodes.Keys && d.nodes.Keys == d.nodes.Keys + Elements(layer)
  {}

  /** One layer up: sound still, grouped as the final table has it, and its parents are all it adds. */
  lemma LayerStep(s: Source, d: Draft, layer: seq<Id>, m: nat, revision: nat, nodes: map<Id, Node>,
                  kids: map<Id, seq<Id>>)
    requires 2 <= m && Reliable(s) && Sound(s, d, layer, m) && Covers(d.nodes, layer) && |layer| > m
    requires Extends(Climb(d, layer, m, s.reusable, revision).draft.kids, kids) && AllKeep(nodes, kids)
    ensures var up := GroupLayer(d, layer, m, s.reusable, revision);
            && Sound(s, up.draft, up.layer, m)
               && Extends(Climb(up.draft, up.layer, m, s.reusable, revision).draft.kids, kids)
            && Grouped(nodes, kids, layer, m) && Above(nodes, layer, m) == up.layer
            && up.draft.nodes.Keys == d.nodes.Keys + Elements(up.layer)
  {
    hide *;
    ClimbCases(d, layer, m, s.reusable, revision);
    assert [] + layer == layer;
    GroupLayerSound(s, d, [], layer, m, revision);
    var up := GroupLayer(d, layer, m, s.reusable, revision);
    assert [] + up.layer == up.layer;
    ClimbSound(s, up.draft, up.layer, m, revision);
    ExtendsThrough(up.draft.kids, Climb(up.draft, up.layer, m, s.reusable, revision).draft.kids, kids);
    GroupLayerLayers(s, d, [], layer, m, revision, nodes, kids);
    GroupLayerAdds(d, layer, m, s.reusable, revision);
  }

  lemma KeysAdd(keys: set<Id>, low: set<Id>, up: set<Id>, above: set<Id>)
    requires low <= keys && up <= above
    ensures keys + up + above == keys + (low + above)
    ensures keys == keys + low
  {}

  lemma LayeredCases(nodes: map<Id, Node>, kids: map<Id, seq<Id>>, layer: seq<Id>, top: seq<Id>, m: nat)
    requires 2 <= m
    ensures |layer| <= m ==> Layered(nodes, kids, layer, layer, m) && Reached(nodes, layer, m) == Elements(layer)
    ensures |layer| > m ==> Reached(nodes, layer, m) == Elements(layer) + Reached(nodes, Above(nodes, layer, m), m)
    ensures |layer| > m && Grouped(nodes, kids, layer, m) && Layered(nodes, kids, Above(nodes, layer, m), top, m) ==>
              Layered(nodes, kids, layer, top, m)
  {
    hide Above, Grouped;
  }

  lemma ClimbCases(d: Draft, layer: seq<Id>, m: nat, reusable: Families, revision: nat)
    requires 2 <= m && Covers(d.nodes, layer)
    ensures |layer| <= m ==> Climb(d, layer, m, reusable, revision) == Climbed(d, layer)
    ensures |layer| > m ==>
              var up := GroupLayer(d, layer, m, reusable, revision);
              Climb(d, layer, m, reusable, revision) == Climb(up.draft, up.layer, m, reusable, revision)
  {
    hide GroupLayer;
  }

  lemma ReachedIncludes(nodes: map<Id, Node>, layer: seq<Id>, m: nat)
    requires 2 <= m
    ensures Elements(layer) <= Reached(nodes, layer, m)
  {}

  lemma PlanTop(s: Source, leaves: seq<Node>, m: nat, revision: nat, nextId: Id)
    requires 2 <= m && Input(s, leaves, nextId) && Covers(Index(leaves), LeafLayer(leaves))
    ensures var r := Plan(leaves, s.reusable, m, revision, nextId);
            var top := Climb(Draft(Index(leaves), map[], [], nextId), LeafLayer(leaves), m, s.reusable, revision);
            && r.draft.kids == top.draft.kids && r.layer == top.layer && r.draft.nodes.Keys == top.draft.nodes.Keys
            && r.draft.requests == top.draft.requests && r.draft.nextId == top.draft.nextId
            && Extends(top.draft.kids, r.draft.kids)
  {}

  /** A plan's table is layered over its leaves, and holds nothing that is not reached from them. */
  lemma PlanIsLayered(s: Source, leaves: seq<Node>, m: nat, revision: nat, nextId: Id)
    requires 2 <= m && Input(s, leaves, nextId)
    ensures var r := Plan(leaves, s.reusable, m, revision, nextId);
            && Layered(r.draft.nodes, r.draft.kids, LeafLayer(leaves), r.layer, m)
            && r.draft.nodes.Keys == Reached(r.draft.nodes, LeafLayer(leaves), m)
  {
    var d := Draft(Index(leaves), map[], [], nextId);
    var r := Plan(leaves, s.reusable, m, revision, nextId);
    StartSound(s, leaves, m, nextId);
    LeafLayerCovered(leaves);
    PlanIsForest(s, leaves, m, revision, nextId);
    ReachedIncludes(r.draft.nodes, LeafLayer(leaves), m);
    ClimbSound(s, d, LeafLayer(leaves), m, revision);
    PlanTop(s, leaves, m, revision, nextId);
    hide *;
    ClimbLayers(s, d, LeafLayer(leaves), m, revision, r.draft.nodes, r.draft.kids);
  }

  // ---------------------------------------------------------------- sharing between two plans

  /** `after` is `before`, or `before` up to its last node with one last node changed or added. */
  ghost predicate Appended(before: seq<Id>, after: seq<Id>) {
    && |after| >= 1 && |after| - 1 <= |before| <= |after|
    && after[..|after|-1] == before[..|after|-1]
  }

  lemma AppendedRest(before: seq<Id>, after: seq<Id>, m: nat)
    requires 2 <= m < |after| && Appended(before, after)
    ensures |before| >= m && Head(before, m) == Head(after, m) && Appended(Rest(before, m), Rest(after, m))
    ensures before == after ==> Rest(before, m) == Rest(after, m)
  {
    var n := |after| - 1;
    assert after[..m] == after[..n][..m] == before[..n][..m] == before[..m];
    assert after[m..][..n-m] == after[..n][m..] == before[..n][m..];
    if |before| > m {
      assert before[m..][..n-m] == before[..n][m..];
    } else {
      assert before[..m] == before;
      assert n == m;
    }
  }

  /** All groups before the last are shared, so at most the last one needs a new parent. */
  lemma {:induction false} GroupLayerShares(s: Source, d: Draft, pre: seq<Id>, after: seq<Id>, m: nat, revision: nat,
                                            nodes: map<Id, Node>, kids: map<Id, seq<Id>>, before: seq<Id>)
    requires 2 <= m && Reliable(s) && Sound(s, d, pre + after, m) && Covers(d.nodes, after)
    requires Mirrors(s.reusable, nodes, kids) && AllKeep(nodes, kids)
    requires Appended(before, after) && Grouped(nodes, kids, before, m)
    ensures var r := GroupLayer(d, after, m, s.reusable, revision);
            && Appended(Above(nodes, before, m), r.layer)
            && |r.draft.requests| <= |d.requests| + 1
            && (before == after ==> r.layer == Above(nodes, before, m) && r.draft.requests == d.requests)
    decreases |after|
  {
    hide Sound, Reliable, ParentFor, Join, GroupLayer, AllKeep, Grouped, Above, Mirrors, Head, Rest;
    GroupLayerCases(d, after, m, s.reusable, revision);
    if |before| < 2 { GroupedSmall(nodes, kids, before, m); }
    if |after| >= 2 {
      var g, rest := Head(after, m), Rest(after, m);
      assert pre + after == pre + g + rest;
      JoinSound(s, d, pre, g, rest, m, revision);
      var p := ParentFor(d, g, s.reusable, revision).id;
      var e := Join(d, g, s.reusable, revision);
      if |after| > m {
        AppendedRest(before, after, m);
        var q := GroupedUncons(nodes, kids, before, m);
        SharedParent(d, g, s.reusable, revision, nodes, kids, q);
        GroupLayerShares(s, e, pre + [p], rest, m, revision, nodes, kids, Rest(before, m));
      } else {
        LastGroup(d, after, m, s.reusable, revision);
        if before == after {
          var q := GroupedUncons(nodes, kids, before, m);
          SharedParent(d, g, s.reusable, revision, nodes, kids, q);
        }
      }
    }
  }

  lemma LastGroup(d: Draft, layer: seq<Id>, m: nat, reusable: Families, revision: nat)
    requires 2 <= |layer| <= m && Covers(d.nodes, layer)
    ensures Head(layer, m) == layer
    ensures var r := GroupLayer(d, layer, m, reusable, revision);
            && r.layer == [ParentFor(d, layer, reusable, revision).id]
            && r.draft.requests == Join(d, layer, reusable, revision).requests
            && |r.draft.requests| <= |d.requests| + 1
    ensures Width(|layer|, m) == 1 && Rest(layer, m) == []
  {
    GroupLayerCases(d, layer, m, reusable, revision);
  }

  /** A group that is a published child list gets its published parent, without a request. */
  lemma SharedParent(d: Draft, g: seq<Id>, reusable: Families, revision: nat, nodes: map<Id, Node>,
                     kids: map<Id, seq<Id>>, q: Id)
    requires g != [] && Covers(d.nodes, g) && Mirrors(reusable, nodes, kids) && AllKeep(nodes, kids)
    requires g[0] in nodes && nodes[g[0]].parent == Some(q) && q in kids && kids[q] == g
    ensures ParentFor(d, g, reusable, revision).id == q
    ensures Join(d, g, reusable, revision).requests == d.requests
  {
    assert reusable[kids[q]] == nodes[q];
    KeepsFirst(nodes, kids, reusable[g].id);
  }

  /** The new parents each layer of the climb asks for, lowest layer first. */
  function LayerCosts(d: Draft, layer: seq<Id>, m: nat, reusable: Families, revision: nat): seq<int>
    requires 2 <= m && Covers(d.nodes, layer)
    decreases |layer|
  {
    if |layer| <= m then []
    else
      var up := GroupLayer(d, layer, m, reusable, revision);
      WidthShrinks(|layer|, m);
      [|up.draft.requests| - |d.requests|] + LayerCosts(up.draft, up.layer, m, reusable, revision)
  }

  function Sum(costs: seq<int>): int {
    if costs == [] then 0 else costs[0] + Sum(costs[1..])
  }

  /** No layer asks for more than one new parent. */
  ghost predicate OneEach(costs: seq<int>) {
    forall k :: 0 <= k < |costs| ==> 0 <= costs[k] <= 1
  }

  lemma OneEachCons(cost: int, rest: seq<int>)
    requires 0 <= cost <= 1 && OneEach(rest)
    ensures OneEach([cost] + rest)
  {}

  /** There is one cost to each layer, and together they are all the requests of the climb. */
  lemma {:induction false} CostsOfClimb(d: Draft, layer: seq<Id>, m: nat, reusable: Families, revision: nat)
    requires 2 <= m && Covers(d.nodes, layer)
    ensures var costs := LayerCosts(d, layer, m, reusable, revision);
            && |costs| == Height(|layer|, m)
            && |Climb(d, layer, m, reusable, revision).draft.requests| == |d.requests| + Sum(costs)
    decreases |layer|
  {
    hide GroupLayer;
    ClimbCases(d, layer, m, reusable, revision);
    if |layer| > m {
      var up := GroupLayer(d, layer, m, reusable, revision);
      WidthShrinks(|layer|, m);
      CostsOfClimb(up.draft, up.layer, m, reusable, revision);
      var rest := LayerCosts(up.draft, up.layer, m, reusable, revision);
      assert ([|up.draft.requests| - |d.requests|] + rest)[1..] == rest;
    }
  }

  lemma CostsCases(d: Draft, layer: seq<Id>, m: nat, reusable: Families, revision: nat)
    requires 2 <= m && Covers(d.nodes, layer)
    ensures |layer| <= m ==> LayerCosts(d, layer, m, reusable, revision) == []
    ensures |layer| > m ==>
              var up := GroupLayer(d, layer, m, reusable, revision);
              LayerCosts(d, layer, m, reusable, revision) ==
                [|up.draft.requests| - |d.requests|] + LayerCosts(up.draft, up.layer, m, reusable, revision)
  {
    hide GroupLayer;
  }

  /** Over the same leaves the climb makes no parent and meets exactly the published ones. */
  lemma {:induction false} ClimbRepeats(s: Source, d: Draft, layer: seq<Id>, m: nat, revision: nat,
                                        nodes: map<Id, Node>, kids: map<Id, seq<Id>>, top: seq<Id>)
    requires 2 <= m && Reliable(s) && Sound(s, d, layer, m) && Covers(d.nodes, layer) && layer != []
    requires Mirrors(s.reusable, nodes, kids) && AllKeep(nodes, kids) && Layered(nodes, kids, layer, top, m)
    ensures var r := Climb(d, layer, m, s.reusable, revision);
            && r.layer == top && r.draft.requests == d.requests
            && r.draft.nodes.Keys == d.nodes.Keys + Reached(nodes, layer, m)
    decreases |layer|
  {
    LayerKnown(d, layer);
    LayeredTop(nodes, kids, layer, top, m);
    ClimbCases(d, layer, m, s.reusable, revision);
    hide *;
    if |layer| > m {
      WidthShrinks(|layer|, m);
      LayeredUncons(nodes, kids, layer, top, m);
      RepeatedLayer(s, d, layer, m, revision, nodes, kids);
      var up := GroupLayer(d, layer, m, s.reusable, revision);
      ClimbRepeats(s, up.draft, up.layer, m, revision, nodes, kids, top);
      ReachedIncludes(nodes, up.layer, m);
      KeysAdd(d.nodes.Keys, Elements(layer), Elements(up.layer), Reached(nodes, up.layer, m));
    }
  }

  /** One layer up over the same nodes: the published layer again, without a request. */
  lemma RepeatedLayer(s: Source, d: Draft, layer: seq<Id>, m: nat, revision: nat, nodes: map<Id, Node>,
                      kids: map<Id, seq<Id>>)
    requires 2 <= m < |layer| && Reliable(s) && Sound(s, d, layer, m) && Covers(d.nodes, layer)
    requires Mirrors(s.reusable, nodes, kids) && AllKeep(nodes, kids) && Grouped(nodes, kids, layer, m)
    ensures var up := GroupLayer(d, layer, m, s.reusable, revision);
            && Sound(s, up.draft, up.layer, m) && up.layer == Above(nodes, layer, m) && up.layer != []
            && up.draft.requests == d.requests && up.draft.nodes.Keys == d.nodes.Keys + Elements(up.layer)
  {
    hide *;
    assert [] + layer == layer;
    GroupLayerSound(s, d, [], layer, m, revision);
    var up := GroupLayer(d, layer, m, s.reusable, revision);
    assert [] + up.layer == up.layer;
    AppendedSame(layer);
    GroupLayerShares(s, d, [], layer, m, revision, nodes, kids, layer);
    NonEmptyWidth(|layer|, m);
    GroupLayerAdds(d, layer, m, s.reusable, revision);
  }

  lemma AppendedSame(layer: seq<Id>)
    requires layer != []
    ensures Appended(layer, layer)
  {}

  lemma NonEmptyWidth(n: nat, m: nat)
    requires 0 < m && n > 0
    ensures Width(n, m) > 0
  {}

  lemma LayeredTop(nodes: map<Id, Node>, kids: map<Id, seq<Id>>, layer: seq<Id>, top: seq<Id>, m: nat)
    requires 2 <= m && Layered(nodes, kids, layer, top, m)
    ensures |layer| <= m ==> top == layer && Reached(nodes, layer, m) == Elements(layer)
    ensures |layer| > m ==> Reached(nodes, layer, m) == Elements(layer) + Reached(nodes, Above(nodes, layer, m), m)
  {
    hide Above, Grouped;
  }

  lemma LayeredUncons(nodes: map<Id, Node>, kids: map<Id, seq<Id>>, layer: seq<Id>, top: seq<Id>, m: nat)
    requires 2 <= m && |layer| > m && Layered(nodes, kids, layer, top, m)
    ensures Grouped(nodes, kids, layer, m) && Layered(nodes, kids, Above(nodes, layer, m), top, m)
  {
    hide Above, Grouped;
  }

  /** Over the same or one more leaf, each layer of the climb makes at most one new parent. */
  lemma {:induction false} ClimbShares(s: Source, d: Draft, after: seq<Id>, m: nat, revision: nat,
                                       nodes: map<Id, Node>, kids: map<Id, seq<Id>>, before: seq<Id>, top: seq<Id>)
    requires 2 <= m && Reliable(s) && Sound(s, d, after, m) && Covers(d.nodes, after)
    requires Mirrors(s.reusable, nodes, kids) && AllKeep(nodes, kids)
    requires Appended(before, after) && Layered(nodes, kids, before, top, m)
    ensures OneEach(LayerCosts(d, after, m, s.reusable, revision))
    decreases |after|
  {
    hide *;
    CostsCases(d, after, m, s.reusable, revision);
    if |after| > m {
      WidthShrinks(|after|, m);
      assert [] + after == after;
      GroupLayerSound(s, d, [], after, m, revision);
      var up := GroupLayer(d, after, m, s.reusable, revision);
      assert [] + up.layer == up.layer;
      assert 0 <= |up.draft.requests| - |d.requests|;
      if |before| <= m {
        JustFull(before, after, m);
        OneMoreThanFull(d, after, m, s.reusable, revision);
        CostsCases(up.draft, up.layer, m, s.reusable, revision);
        NoCosts();
        OneEachCons(|up.draft.requests| - |d.requests|, []);
      } else {
        LayeredUncons(nodes, kids, before, top, m);
        GroupLayerShares(s, d, [], after, m, revision, nodes, kids, before);
        ClimbShares(s, up.draft, up.layer, m, revision, nodes, kids, Above(nodes, before, m), top);
        OneEachCons(|up.draft.requests| - |d.requests|, LayerCosts(up.draft, up.layer, m, s.reusable, revision));
      }
    } else {
      NoCosts();
    }
  }

  lemma NoCosts()
    ensures OneEach([])
  {}

  lemma JustFull(before: seq<Id>, after: seq<Id>, m: nat)
    requires Appended(before, after) && |before| <= m < |after|
    ensures |after| == m + 1 && before != after
  {}

  /** A full row of roots plus one more leaf: one group, one left over, and the climb stops. */
  lemma OneMoreThanFull(d: Draft, after: seq<Id>, m: nat, reusable: Families, revision: nat)
    requires 2 <= m && |after| == m + 1 && Covers(d.nodes, after)
    ensures |GroupLayer(d, after, m, reusable, revision).draft.requests| <= |d.requests| + 1
    ensures |GroupLayer(d, after, m, reusable, revision).layer| == 2
  {
    GroupLayerCases(d, after, m, reusable, revision);
    var e := Join(d, Head(after, m), reusable, revision);
    GroupLayerCases(e, Rest(after, m), m, reusable, revision);
    assert Width(m + 1, m) == 2;
  }
}
