/** The planner as the source runs it: dictionaries rewritten in nested loops, proved to compute `Plan`. */
module HierarchyPlanner {
  import opened Wrappers
  import opened Sequences
  import opened Hierarchy
  import opened HierarchyForest
  import opened HierarchyReuse

  // ---------------------------------------------------------------- published families by child list

  function Siblings(previous: seq<Node>, p: Id): seq<Node> {
    if previous == [] then []
    else
      var n := previous[|previous|-1];
      Siblings(previous[..|previous|-1], p) + (if n.parent == Some(p) then [n] else [])
  }

  /** The children of `p` in sibling order. */
  function ChildList(previous: seq<Node>, p: Id): seq<Id> {
    Ids(SortBy((n: Node) => n.order, Siblings(previous, p)))
  }

  /** `families` maps each child list in the table to its parent, and nothing else. */
  ghost predicate IsFamilies(previous: seq<Node>, families: Families) {
    && (forall n :: n in previous && ChildList(previous, n.id) != [] ==>
          ChildList(previous, n.id) in families && families[ChildList(previous, n.id)] == n)
    && (forall g :: g in families ==> families[g] in previous && g != [] && g == ChildList(previous, families[g].id))
  }

  lemma {:induction false} SiblingsFacts(previous: seq<Node>, p: Id)
    ensures forall n :: n in Siblings(previous, p) <==> n in previous && n.parent == Some(p)
    ensures NoDup(previous) ==> NoDup(Siblings(previous, p))
  {
    if previous != [] {
      var init, n := previous[..|previous|-1], previous[|previous|-1];
      assert previous == init + [n];
      SiblingsFacts(init, p);
      if NoDup(previous) {
        assert NoDup(init);
        assert n !in init;
      }
    }
  }

  lemma ChildListEmpty(previous: seq<Node>, p: Id)
    ensures ChildList(previous, p) == [] <==> Siblings(previous, p) == []
    ensures ChildList(previous, p) != [] ==>
              exists n :: n in previous && n.parent == Some(p) && n.id == ChildList(previous, p)[0]
  {
    var s := SortBy((n: Node) => n.order, Siblings(previous, p));
    SortByFacts((n: Node) => n.order, Siblings(previous, p));
    SiblingsFacts(previous, p);
    if s != [] { assert s[0] in s; }
  }

  lemma NoDupNodes(previous: seq<Node>)
    requires NoDup(Ids(previous))
    ensures NoDup(previous)
    ensures forall a, b :: a in previous && b in previous && a.id == b.id ==> a == b
  {
    var ids := Ids(previous);
    forall i, j | 0 <= i < j < |previous| ensures previous[i].id != previous[j].id {
      assert ids[i] != ids[j];
    }
  }

  /** Different parents have different child lists. */
  lemma ChildListInjective(previous: seq<Node>, p: Id, q: Id)
    requires NoDup(Ids(previous)) && ChildList(previous, p) == ChildList(previous, q) != []
    ensures p == q
  {
    NoDupNodes(previous);
    ChildListEmpty(previous, p);
    ChildListEmpty(previous, q);
  }

  /** `previous` lists the rows of `nodes`, in any order. */
  ghost predicate Lists(previous: seq<Node>, nodes: map<Id, Node>) {
    && NoDup(Ids(previous))
    && (forall n :: n in previous ==> n.id in nodes && nodes[n.id] == n)
    && (forall id :: id in nodes ==> nodes[id] in previous)
  }

  /** `n` is the node `h` names at position `n.order`. */
  ghost predicate Sits(nodes: map<Id, Node>, h: seq<Id>, n: Node) {
    n.order < |h| && n.id == h[n.order] && n.id in nodes && nodes[n.id] == n
  }

  /** Position `j` of `h` names a sibling numbered `j`. */
  ghost predicate Seats(sib: seq<Node>, nodes: map<Id, Node>, h: seq<Id>, j: nat)
    requires j < |h|
  {
    h[j] in nodes && nodes[h[j]] in sib && nodes[h[j]].order == j && nodes[h[j]].id == h[j]
  }

  ghost predicate Positions(sib: seq<Node>, nodes: map<Id, Node>, h: seq<Id>) {
    && (forall n :: n in sib ==> Sits(nodes, h, n))
    && (forall j :: 0 <= j < |h| ==> Seats(sib, nodes, h, j))
  }

  /** In a forest, a parent's rows are exactly its child list, each at its own position. */
  lemma SiblingsAreKids(previous: seq<Node>, nodes: map<Id, Node>, kids: map<Id, seq<Id>>, roots: seq<Id>,
                        leaves: set<Id>, q: Id)
    requires Lists(previous, nodes) && Rooted(nodes, kids, roots, leaves) && q in kids
    ensures Positions(Siblings(previous, q), nodes, kids[q])
  {
    SiblingsFacts(previous, q);
    assert Keeps(nodes, kids, q) && Named(nodes) && AllPlaced(nodes, kids, roots) && Detached(nodes, roots);
    hide Rooted, Siblings, Keeps, Lists, AllPlaced, Named, Sits, Seats, Detached;
    var h := kids[q];
    forall n | n in Siblings(previous, q) ensures Sits(nodes, h, n) {
      SiblingSits(previous, nodes, kids, roots, q, n);
    }
    forall j | 0 <= j < |h| ensures Seats(Siblings(previous, q), nodes, h, j) {
      KidSeats(previous, nodes, kids, q, j);
    }
  }

  lemma SiblingSits(previous: seq<Node>, nodes: map<Id, Node>, kids: map<Id, seq<Id>>, roots: seq<Id>, q: Id, n: Node)
    requires Lists(previous, nodes) && AllPlaced(nodes, kids, roots) && Detached(nodes, roots) && q in kids
    requires n in previous && n.parent == Some(q)
    ensures Sits(nodes, kids[q], n)
  {
    assert n.id in nodes && nodes[n.id] == n;
    assert Placed(nodes, kids, n.id);
  }

  lemma KidSeats(previous: seq<Node>, nodes: map<Id, Node>, kids: map<Id, seq<Id>>, q: Id, j: nat)
    requires Lists(previous, nodes) && q in kids && Keeps(nodes, kids, q) && Named(nodes) && j < |kids[q]|
    ensures Seats(Siblings(previous, q), nodes, kids[q], j)
  {
    SiblingsFacts(previous, q);
    assert kids[q][j] in nodes;
  }

  /** So reading a parent's children in sibling order gives back its child list. */
  lemma ChildListIsKids(previous: seq<Node>, nodes: map<Id, Node>, kids: map<Id, seq<Id>>, roots: seq<Id>,
                        leaves: set<Id>, q: Id)
    requires Lists(previous, nodes) && Rooted(nodes, kids, roots, leaves) && q in kids
    ensures ChildList(previous, q) == kids[q]
  {
    SiblingsAreKids(previous, nodes, kids, roots, leaves, q);
    SiblingsFacts(previous, q);
    NoDupNodes(previous);
    hide Lists, Rooted, Siblings;
    OrderedByPosition(Siblings(previous, q), nodes, kids[q]);
  }

  lemma OrderedByPosition(sib: seq<Node>, nodes: map<Id, Node>, h: seq<Id>)
    requires NoDup(sib) && Positions(sib, nodes, h)
    ensures Ids(SortBy((n: Node) => n.order, sib)) == h
  {
    var key := (n: Node) => n.order;
    var a := SortBy(key, sib);
    SortByFacts(key, sib);
    SortByNoDup(key, sib);
    hide SortBy;
    forall j | 0 <= j < |h|
      ensures h[j] in nodes && nodes[h[j]].order == j && nodes[h[j]].id == h[j] && nodes[h[j]] in a {
      assert Seats(sib, nodes, h, j);
    }
    var b := seq(|h|, j requires 0 <= j < |h| => nodes[h[j]]);
    forall i, j | 0 <= i < j < |a| ensures key(a[i]) < key(a[j]) {
      assert a[i] in sib && a[j] in sib;
      assert Sits(nodes, h, a[i]) && Sits(nodes, h, a[j]);
    }
    forall n | n in a ensures n in b {
      assert n in sib && Sits(nodes, h, n);
      assert b[n.order] == n;
    }
    StrictlySortedUnique(key, a, b);
  }

  /** So the index built from a published table mirrors the table exactly. */
  lemma FamiliesMirror(previous: seq<Node>, families: Families, nodes: map<Id, Node>, kids: map<Id, seq<Id>>,
                       roots: seq<Id>, leaves: set<Id>)
    requires Lists(previous, nodes) && Rooted(nodes, kids, roots, leaves) && IsFamilies(previous, families)
    ensures Mirrors(families, nodes, kids)
  {
    forall q | q in kids ensures kids[q] in families && q in nodes && families[kids[q]] == nodes[q] {
      ChildListIsKids(previous, nodes, kids, roots, leaves, q);
      assert Keeps(nodes, kids, q);
      assert nodes[q] in previous && nodes[q].id == q;
    }
    forall g | g in families
      ensures families[g].id in kids && families[g].id in nodes && kids[families[g].id] == g
      ensures families[g] == nodes[families[g].id]
    {
      var q := families[g].id;
      ChildListEmpty(previous, q);
      var n :| n in previous && n.parent == Some(q) && n.id == g[0];
      assert n.id !in roots;
      assert Placed(nodes, kids, n.id);
      ChildListIsKids(previous, nodes, kids, roots, leaves, q);
    }
  }

  /** The source's `children`: rows collected under their parent, in row order. */
  method CollectChildren(previous: seq<Node>) returns (children: map<Id, seq<Node>>, parents: seq<Id>)
    ensures forall p :: p in parents <==> p in children
    ensures forall p :: p in children ==> children[p] == Siblings(previous, p) != []
    ensures forall p :: p !in children ==> Siblings(previous, p) == []
  {
    children, parents := map[], [];
    for i := 0 to |previous|
      invariant forall p :: p in parents <==> p in children
      invariant forall p :: p in children ==> children[p] == Siblings(previous[..i], p) != []
      invariant forall p :: p !in children ==> Siblings(previous[..i], p) == []
    {
      var node := previous[i];
      assert previous[..i+1][..i] == previous[..i];
      if node.parent.Some? {
        var p := node.parent.value;
        if p in children {
          children := children[p := children[p] + [node]];
        } else {
          children := children[p := [node]];
          parents := parents + [p];
        }
      }
    }
    assert previous[..|previous|] == previous;
  }

  /** The source's `reusable`: one entry for each parent that is itself in the table. */
  method BuildFamilies(previous: seq<Node>) returns (families: Families)
    requires NoDup(Ids(previous))
    ensures IsFamilies(previous, families)
  {
    var children, parents := CollectChildren(previous);
    NoDupNodes(previous);
    var byId := map n | n in previous :: n.id := n;
    families := map[];
    for k := 0 to |parents|
      invariant Proper(previous, families)
      invariant forall j :: 0 <= j < k && parents[j] in byId ==> Filed(previous, families, byId[parents[j]])
    {
      var p := parents[k];
      if p in byId {
        var key := Ids(SortBy((n: Node) => n.order, children[p]));
        assert key == ChildList(previous, p);
        ChildListEmpty(previous, p);
        FileOne(previous, families, byId[p]);
        families := families[key := byId[p]];
      }
    }
    forall n | n in previous && ChildList(previous, n.id) != [] ensures Filed(previous, families, n) {
      ChildListEmpty(previous, n.id);
      assert byId[n.id] == n;
    }
  }

  ghost predicate Proper(previous: seq<Node>, families: Families) {
    forall g :: g in families ==> families[g] in previous && g != [] && g == ChildList(previous, families[g].id)
  }

  lemma FileOne(previous: seq<Node>, families: Families, n: Node)
    requires NoDup(Ids(previous)) && Proper(previous, families) && n in previous && ChildList(previous, n.id) != []
    ensures Proper(previous, families[ChildList(previous, n.id) := n])
    ensures Filed(previous, families[ChildList(previous, n.id) := n], n)
    ensures forall x :: x in previous && Filed(previous, families, x) ==>
              Filed(previous, families[ChildList(previous, n.id) := n], x)
  {
    hide ChildList, Ids;
    var more := families[ChildList(previous, n.id) := n];
    forall x | x in previous && Filed(previous, families, x) ensures Filed(previous, more, x) {
      if ChildList(previous, x.id) == ChildList(previous, n.id) {
        ChildListInjective(previous, x.id, n.id);
        assert x == n by { NoDupNodes(previous); }
      }
    }
  }

  ghost predicate Filed(previous: seq<Node>, families: Families, n: Node) {
    ChildList(previous, n.id) in families && families[ChildList(previous, n.id)] == n
  }

  // ---------------------------------------------------------------- the nested loops

  method PlanHierarchy(leaves: seq<Node>, previous: seq<Node>, maxChildren: int, revision: nat, nextId: Id)
    returns (r: Result<Climbed, string>, ghost families: Families)
    requires NoDup(Ids(leaves)) && NoDup(Ids(previous))
    ensures maxChildren < 2 ==> r == Err("tree_max_children must be at least 2")
    ensures maxChildren >= 2 ==>
              IsFamilies(previous, families) && r == Ok(Plan(leaves, families, maxChildren, revision, nextId))
  {
    if maxChildren < 2 {
      families := map[];
      return Err("tree_max_children must be at least 2"), families;
    }
    var reusable := BuildFamilies(previous);
    families := reusable;
    var layer := LeafLayer(leaves);
    var d := Draft(Index(leaves), map[], [], nextId);
    LeafLayerCovered(leaves);
    ghost var goal := Climb(d, layer, maxChildren, reusable, revision);
    while |layer| > maxChildren
      invariant Covers(d.nodes, layer)
      invariant goal == Climb(d, layer, maxChildren, reusable, revision)
      decreases |layer|
    {
      WidthShrinks(|layer|, maxChildren);
      d, layer := RaiseLayer(d, layer, maxChildren, reusable, revision);
    }
    var nodes := NumberRoots(d.nodes, layer);
    r := Ok(Climbed(d.(nodes := nodes), layer));
  }

  /** The inner loop: one pass over the layer, `m` nodes at a time. */
  method RaiseLayer(d0: Draft, layer: seq<Id>, m: nat, reusable: Families, revision: nat)
    returns (d: Draft, nextLayer: seq<Id>)
    requires 2 <= m && Covers(d0.nodes, layer)
    ensures Climbed(d, nextLayer) == GroupLayer(d0, layer, m, reusable, revision)
  {
    hide Join, ParentFor, GroupLayer, Head, Rest, Continues;
    d, nextLayer := d0, [];
    ghost var whole := GroupLayer(d0, layer, m, reusable, revision);
    var start := 0;
    assert layer[0..] == layer;
    ContinuesAll(whole);
    while start < |layer|
      invariant 0 <= start <= |layer| && Covers(d.nodes, layer[start..])
      invariant Continues(whole, nextLayer, GroupLayer(d, layer[start..], m, reusable, revision))
      decreases |layer| - start
    {
      var stop := if start + m <= |layer| then start + m else |layer|;
      var group := layer[start..stop];
      GroupLayerCases(d, layer[start..], m, reusable, revision);
      GroupAt(layer, start, stop, m);
      if |group| == 1 {
        GroupLayerCases(d, [], m, reusable, revision);
        ContinuesWith(whole, nextLayer, group, Climbed(d, []), GroupLayer(d, layer[start..], m, reusable, revision));
        nextLayer := nextLayer + group;
      } else {
        var d2, p := JoinGroup(d, group, reusable, revision);
        ghost var tail := GroupLayer(d2, layer[stop..], m, reusable, revision);
        ContinuesWith(whole, nextLayer, [p], tail, GroupLayer(d, layer[start..], m, reusable, revision));
        d, nextLayer := d2, nextLayer + [p];
      }
      start := stop;
    }
    GroupLayerCases(d, [], m, reusable, revision);
    assert layer[start..] == [];
    ContinuesDone(whole, nextLayer, d);
  }

  /** What the pass still has to do, `rest`, completes what it has done into the whole layer. */
  ghost predicate Continues(whole: Climbed, done: seq<Id>, rest: Climbed) {
    whole == Climbed(rest.draft, done + rest.layer)
  }

  lemma ContinuesAll(whole: Climbed)
    ensures Continues(whole, [], whole)
  {
    assert [] + whole.layer == whole.layer;
  }

  lemma ContinuesWith(whole: Climbed, done: seq<Id>, group: seq<Id>, tail: Climbed, rest: Climbed)
    requires Continues(whole, done, rest) && rest == Climbed(tail.draft, group + tail.layer)
    ensures Continues(whole, done + group, tail)
  {
    assert done + (group + tail.layer) == (done + group) + tail.layer;
  }

  lemma ContinuesDone(whole: Climbed, done: seq<Id>, d: Draft)
    requires Continues(whole, done, Climbed(d, []))
    ensures whole == Climbed(d, done)
  {
    assert done + [] == done;
  }

  lemma GroupAt(layer: seq<Id>, start: nat, stop: nat, m: nat)
    requires 2 <= m && start < |layer| && stop == if start + m <= |layer| then start + m else |layer|
    ensures layer[start..stop] == Head(layer[start..], m) && layer[stop..] == Rest(layer[start..], m)
    ensures stop == start + 1 ==> layer[start..] == layer[start..stop] && layer[stop..] == []
  {
    if start + m <= |layer| {
      assert layer[start..][..m] == layer[start..stop];
      assert layer[start..][m..] == layer[stop..];
      assert |layer[start..]| <= m ==> layer[start..] == layer[start..stop];
    }
  }

  method NumberRoots(nodes0: map<Id, Node>, layer: seq<Id>) returns (nodes: map<Id, Node>)
    requires Covers(nodes0, layer)
    ensures nodes == Crown(nodes0, layer, 0)
  {
    nodes := nodes0;
    for i := 0 to |layer|
      invariant Covers(nodes, layer)
      invariant Crown(nodes, layer, i) == Crown(nodes0, layer, 0)
    {
      nodes := nodes[layer[i] := nodes[layer[i]].(parent := None, order := i)];
    }
  }

  /** One group: find or make its parent, then rewrite every child. */
  method JoinGroup(d: Draft, group: seq<Id>, reusable: Families, revision: nat) returns (r: Draft, p: Id)
    requires |group| >= 2 && Covers(d.nodes, group)
    ensures r == Join(d, group, reusable, revision) && p == ParentFor(d, group, reusable, revision).id
  {
    var nodes: map<Id, Node>, requests, nextId := d.nodes, d.requests, d.nextId;
    var parent;
    if group in reusable {
      parent := reusable[group];
    } else {
      parent := Node(nextId, None, 0, nodes[group[0]].lo, nodes[group[|group|-1]].hi, None, None, revision);
      nextId := nextId + 1;
      requests := requests + [Request(parent.id, group)];
    }
    p := parent.id;
    nodes := nodes[p := parent.(parent := None)];
    ghost var start := nodes;
    for i := 0 to |group|
      invariant Covers(nodes, group)
      invariant Adopt(nodes, group, p, i) == Adopt(start, group, p, 0)
    {
      nodes := nodes[group[i] := nodes[group[i]].(parent := Some(p), order := i)];
    }
    r := Draft(nodes, d.kids[p := group], requests, nextId);
  }
}
