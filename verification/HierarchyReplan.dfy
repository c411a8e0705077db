/** What one published forest guarantees to the next plan over it. */
module HierarchyReplan {
  import opened Wrappers
  import opened Sequences
  import opened Hierarchy
  import opened HierarchyForest
  import opened HierarchyReuse

  /** A published tree: its table, its child lists, its roots, and its leaf nodes in chronological order. */
  datatype Forest = Forest(nodes: map<Id, Node>, kids: map<Id, seq<Id>>, roots: seq<Id>, leaves: seq<Node>)

  const NoForest := Forest(map[], map[], [], [])

  ghost predicate Chronological(leaves: seq<Node>) {
    forall i, j :: 0 <= i < j < |leaves| ==> leaves[i].lo < leaves[j].lo
  }

  ghost predicate LeavesFiled(nodes: map<Id, Node>, leaves: seq<Node>) {
    forall n :: n in leaves ==> n.id in nodes && nodes[n.id] == n
  }

  ghost predicate Settled(f: Forest, m: nat) {
    && 2 <= m
    && Published(f.nodes, f.kids, f.roots, Index(f.leaves).Keys, m)
    && NoDup(Ids(f.leaves)) && Chronological(f.leaves) && LeavesFiled(f.nodes, f.leaves)
    && Layered(f.nodes, f.kids, Ids(f.leaves), f.roots, m)
    && f.nodes.Keys == Reached(f.nodes, Ids(f.leaves), m)
  }

  /** New leaves: unused identifiers, later than every published leaf. */
  ghost predicate Later(f: Forest, xs: seq<Node>, nextId: Id) {
    && NoDup(Ids(f.leaves + xs)) && Chronological(f.leaves + xs)
    && (forall id :: id in f.nodes ==> id < nextId)
    && (forall x :: x in xs ==> x.id < nextId && x.id !in f.nodes)
  }

  function SourceOf(f: Forest, xs: seq<Node>, reusable: Families, nextId: Id): Source {
    Source(reusable, f.nodes, Index(f.leaves + xs), nextId)
  }

  lemma EmptySettled(m: nat)
    requires 2 <= m
    ensures Settled(NoForest, m)
  {
    assert Ids([]) == [];
  }

  lemma LeafLayerIsIds(leaves: seq<Node>)
    requires Chronological(leaves)
    ensures LeafLayer(leaves) == Ids(leaves)
  {
    SortBySorted((n: Node) => n.lo, leaves);
  }

  // ---------------------------------------------------------------- a published forest is a sound input

  lemma ReusesFamily(f: Forest, xs: seq<Node>, reusable: Families, nextId: Id, g: seq<Id>)
    requires AllKeep(f.nodes, f.kids) && Mirrors(reusable, f.nodes, f.kids) && g in reusable
    requires reusable[g].id !in Index(f.leaves + xs)
    ensures Reusing(SourceOf(f, xs, reusable, nextId), g)
  {
    assert Keeps(f.nodes, f.kids, reusable[g].id);
  }

  lemma IndexedLeaf(f: Forest, xs: seq<Node>, nextId: Id, id: Id)
    requires LeavesFiled(f.nodes, f.leaves) && Later(f, xs, nextId) && id in Index(f.leaves + xs)
    ensures var n := Index(f.leaves + xs)[id];
            && n.id == id && n.parent == None && id < nextId
            && (id in f.nodes ==> id in Index(f.leaves) && f.nodes[id].Content() == n.Content())
  {
    hide Chronological;
    IndexFacts(f.leaves + xs);
    var n :| n in f.leaves + xs && n.id == id;
    assert n in f.leaves || n in xs;
  }

  /** Only the forest shape is needed, so the fan-out may have changed since publication. */
  lemma SettledInput(f: Forest, xs: seq<Node>, reusable: Families, nextId: Id)
    requires Rooted(f.nodes, f.kids, f.roots, Index(f.leaves).Keys) && LeavesFiled(f.nodes, f.leaves)
    requires Mirrors(reusable, f.nodes, f.kids) && Later(f, xs, nextId)
    ensures Input(SourceOf(f, xs, reusable, nextId), f.leaves + xs, nextId)
  {
    var s := SourceOf(f, xs, reusable, nextId);
    assert Named(f.nodes) && AllKeep(f.nodes, f.kids) && f.kids.Keys !! Index(f.leaves).Keys;
    hide Rooted, AllKeep, Index, Reusing, Chronological, LeavesFiled, NoDup, Ids;
    LeavesAgreeLater(f, xs, reusable, nextId);
    forall g | g in reusable ensures Reusing(s, g) {
      FamilyParentIsNoLeaf(f, xs, reusable, nextId, g);
      ReusesFamily(f, xs, reusable, nextId, g);
    }
    assert OldIds(s) && OneFamilyEach(reusable);
  }

  lemma LeavesAgreeLater(f: Forest, xs: seq<Node>, reusable: Families, nextId: Id)
    requires LeavesFiled(f.nodes, f.leaves) && Later(f, xs, nextId)
    ensures LeavesAgree(SourceOf(f, xs, reusable, nextId))
  {
    var s := SourceOf(f, xs, reusable, nextId);
    hide LeavesFiled, Later, Index;
    forall id | id in s.leaves
      ensures id < nextId && s.leaves[id].id == id && s.leaves[id].parent == None
      ensures id in f.nodes ==> f.nodes[id].Content() == s.leaves[id].Content()
    {
      IndexedLeaf(f, xs, nextId, id);
    }
  }

  lemma FamilyParentIsNoLeaf(f: Forest, xs: seq<Node>, reusable: Families, nextId: Id, g: seq<Id>)
    requires LeavesFiled(f.nodes, f.leaves) && f.kids.Keys !! Index(f.leaves).Keys && Later(f, xs, nextId)
    requires Mirrors(reusable, f.nodes, f.kids) && g in reusable
    ensures reusable[g].id !in Index(f.leaves + xs)
  {
    var id := reusable[g].id;
    assert id in f.kids;
    if id in Index(f.leaves + xs) { IndexedLeaf(f, xs, nextId, id); }
  }

  // ---------------------------------------------------------------- planning again

  lemma SettledParts(f: Forest, m: nat)
    requires Settled(f, m)
    ensures 2 <= m && Rooted(f.nodes, f.kids, f.roots, Index(f.leaves).Keys) && AllKeep(f.nodes, f.kids)
    ensures Layered(f.nodes, f.kids, Ids(f.leaves), f.roots, m) && f.nodes.Keys == Reached(f.nodes, Ids(f.leaves), m)
    ensures LeavesFiled(f.nodes, f.leaves) && Numbered(f.nodes, f.roots)
  {
    hide AllKeep, AllPlaced, Named, Detached;
  }

  lemma StartParts(s: Source, leaves: seq<Node>, m: nat, nextId: Id)
    requires Input(s, leaves, nextId) && Chronological(leaves)
    ensures Reliable(s) && LeafLayer(leaves) == Ids(leaves) && s.leaves == Index(leaves)
    ensures Sound(s, Draft(Index(leaves), map[], [], nextId), Ids(leaves), m)
    ensures Covers(Index(leaves), Ids(leaves)) && Elements(Ids(leaves)) == Index(leaves).Keys
  {
    LeafLayerIsIds(leaves);
    StartSound(s, leaves, m, nextId);
    LeafLayerCovered(leaves);
  }

  /** The new parents a plan asks for, layer by layer from the leaves up. */
  function PlanCosts(leaves: seq<Node>, reusable: Families, m: nat, revision: nat, nextId: Id): seq<int>
    requires 2 <= m
  {
    LeafLayerCovered(leaves);
    LayerCosts(Draft(Index(leaves), map[], [], nextId), LeafLayer(leaves), m, reusable, revision)
  }

  /** There is one cost to each layer of parents, and together they are the plan's requests. */
  lemma CostsOfPlan(leaves: seq<Node>, reusable: Families, m: nat, revision: nat, nextId: Id)
    requires 2 <= m
    ensures var costs := PlanCosts(leaves, reusable, m, revision, nextId);
            && |costs| == Height(|leaves|, m)
            && Sum(costs) == |Plan(leaves, reusable, m, revision, nextId).draft.requests|
  {
    LeafLayerCovered(leaves);
    hide Climb, LayerCosts, Sum, Height, Index, LeafLayer;
    CostsOfClimb(Draft(Index(leaves), map[], [], nextId), LeafLayer(leaves), m, reusable, revision);
  }

  lemma {:induction false} SumOfOnes(costs: seq<int>)
    requires OneEach(costs)
    ensures 0 <= Sum(costs) <= |costs|
  {
    if costs != [] { SumOfOnes(costs[1..]); }
  }

  /** A plan over leaves that extend a layered table by at most one asks for at most one parent in each layer. */
  lemma PlanShares(s: Source, leaves: seq<Node>, m: nat, revision: nat, nextId: Id, f: Forest, before: seq<Id>)
    requires 2 <= m && Input(s, leaves, nextId) && Chronological(leaves) && Appended(before, Ids(leaves))
    requires Mirrors(s.reusable, f.nodes, f.kids) && AllKeep(f.nodes, f.kids)
             && Layered(f.nodes, f.kids, before, f.roots, m)
    ensures OneEach(PlanCosts(leaves, s.reusable, m, revision, nextId))
  {
    hide *;
    StartParts(s, leaves, m, nextId);
    PlanCostsAre(leaves, s.reusable, m, revision, nextId);
    ClimbShares(s, Draft(Index(leaves), map[], [], nextId), Ids(leaves), m, revision, f.nodes, f.kids, before, f.roots);
  }

  /** A plan over the leaves of a layered table asks for nothing and meets exactly its nodes. */
  lemma PlanRepeats(s: Source, leaves: seq<Node>, m: nat, revision: nat, nextId: Id, f: Forest)
    requires 2 <= m && Input(s, leaves, nextId) && Chronological(leaves) && leaves != []
    requires Mirrors(s.reusable, f.nodes, f.kids) && AllKeep(f.nodes, f.kids)
    requires Layered(f.nodes, f.kids, Ids(leaves), f.roots, m)
    ensures var r := Plan(leaves, s.reusable, m, revision, nextId);
            && r.layer == f.roots && r.draft.requests == []
            && r.draft.nodes.Keys == Index(leaves).Keys + Reached(f.nodes, Ids(leaves), m)
  {
    hide *;
    StartParts(s, leaves, m, nextId);
    PlanTop(s, leaves, m, revision, nextId);
    ClimbRepeats(s, Draft(Index(leaves), map[], [], nextId), Ids(leaves), m, revision, f.nodes, f.kids, f.roots);
  }

  lemma PlanCostsAre(leaves: seq<Node>, reusable: Families, m: nat, revision: nat, nextId: Id)
    requires 2 <= m && Covers(Index(leaves), LeafLayer(leaves))
    ensures PlanCosts(leaves, reusable, m, revision, nextId) ==
            LayerCosts(Draft(Index(leaves), map[], [], nextId), LeafLayer(leaves), m, reusable, revision)
  {
    hide LayerCosts, Index, LeafLayer;
  }

  lemma AppendedIds(leaves: seq<Node>, x: Node)
    ensures Appended(Ids(leaves), Ids(leaves + [x]))
  {
    assert Ids(leaves + [x])[..|leaves|] == Ids(leaves);
  }

  lemma SourceIs(f: Forest, xs: seq<Node>, reusable: Families, nextId: Id)
    requires Later(f, xs, nextId)
    ensures SourceOf(f, xs, reusable, nextId).reusable == reusable && Chronological(f.leaves + xs)
  {
    hide NoDup, Chronological, Ids, Index;
  }

  /** One later leaf costs at most one new parent, and so one summary, in each layer of the new plan. */
  lemma AppendCostsHeight(f: Forest, x: Node, reusable: Families, m: nat, revision: nat, nextId: Id)
    requires Settled(f, m) && Mirrors(reusable, f.nodes, f.kids) && Later(f, [x], nextId)
    ensures var costs := PlanCosts(f.leaves + [x], reusable, m, revision, nextId);
            && OneEach(costs) && |costs| == Height(|f.leaves| + 1, m)
            && Sum(costs) == |Plan(f.leaves + [x], reusable, m, revision, nextId).draft.requests| <= |costs|
  {
    hide *;
    SourceIs(f, [x], reusable, nextId);
    AppendedIds(f.leaves, x);
    SettledParts(f, m);
    SettledInput(f, [x], reusable, nextId);
    PlanShares(SourceOf(f, [x], reusable, nextId), f.leaves + [x], m, revision, nextId, f, Ids(f.leaves));
    CostsOfPlan(f.leaves + [x], reusable, m, revision, nextId);
    SumOfOnes(PlanCosts(f.leaves + [x], reusable, m, revision, nextId));
  }

  /** So the plan over one later leaf asks for no more summaries than it has layers of parents. */
  lemma AppendAsksAtMost(f: Forest, x: Node, reusable: Families, m: nat, revision: nat, nextId: Id)
    requires Settled(f, m) && Mirrors(reusable, f.nodes, f.kids) && Later(f, [x], nextId)
    ensures |Plan(f.leaves + [x], reusable, m, revision, nextId).draft.requests| <= Height(|f.leaves| + 1, m)
  {
    hide *;
    SettledParts(f, m);
    AppendCostsHeight(f, x, reusable, m, revision, nextId);
  }

  /** The same leaves give back the published table exactly: every parent, order and summary, no request. */
  lemma ReplanIsIdentity(f: Forest, reusable: Families, m: nat, revision: nat, nextId: Id)
    requires Settled(f, m) && Mirrors(reusable, f.nodes, f.kids) && Later(f, [], nextId)
    ensures var r := Plan(f.leaves, reusable, m, revision, nextId);
            r.draft.nodes == f.nodes && r.draft.kids == f.kids && r.draft.requests == [] && r.layer == f.roots
  {
    var s := SourceOf(f, [], reusable, nextId);
    hide *;
    SettledParts(f, m);
    SourceAgain(f, reusable, nextId);
    SettledInput(f, [], reusable, nextId);
    ReplanSkeleton(f, s, m, revision, nextId);
    PlanIsForest(s, f.leaves, m, revision, nextId);
    PlanKeepsContent(s, f.leaves, m, revision, nextId);
    var r := Plan(f.leaves, reusable, m, revision, nextId);
    PublishedParts(r.draft.nodes, r.draft.kids, r.layer, s.leaves.Keys, m);
    SameKids(s, f, r.draft);
    SameTable(s, f, r.draft.nodes);
  }

  /** What a plan without new leaves is made from. */
  lemma SourceAgain(f: Forest, reusable: Families, nextId: Id)
    requires LeavesFiled(f.nodes, f.leaves) && Later(f, [], nextId)
    ensures var s := SourceOf(f, [], reusable, nextId);
            && s.before == f.nodes && s.leaves == Index(f.leaves) && s.base == nextId && s.reusable == reusable
            && f.leaves + [] == f.leaves && (forall id :: id in f.nodes ==> id < nextId)
            && forall id :: id in s.leaves && id in f.nodes ==> s.leaves[id].Content() == f.nodes[id].Content()
  {
    assert f.leaves + [] == f.leaves;
    var s := SourceOf(f, [], reusable, nextId);
    forall id | id in s.leaves && id in f.nodes ensures s.leaves[id].Content() == f.nodes[id].Content() {
      IndexedLeaf(f, [], nextId, id);
    }
  }

  lemma PublishedParts(nodes: map<Id, Node>, kids: map<Id, seq<Id>>, roots: seq<Id>, leaves: set<Id>, m: nat)
    requires Published(nodes, kids, roots, leaves, m)
    ensures Rooted(nodes, kids, roots, leaves) && Numbered(nodes, roots) && Fanout(kids, m) && |roots| <= m
  {}

  lemma ReplanSkeleton(f: Forest, s: Source, m: nat, revision: nat, nextId: Id)
    requires Settled(f, m) && Input(s, f.leaves, nextId) && Mirrors(s.reusable, f.nodes, f.kids)
    ensures var r := Plan(f.leaves, s.reusable, m, revision, nextId);
            r.layer == f.roots && r.draft.requests == [] && r.draft.nodes.Keys == f.nodes.Keys
  {
    LeavesReached(f, m);
    hide *;
    SettledParts(f, m);
    if f.leaves == [] {
      NoLeavesNoPlan(f, s.reusable, m, revision, nextId);
    } else {
      PlanRepeats(s, f.leaves, m, revision, nextId, f);
    }
  }

  lemma NoLeavesNoPlan(f: Forest, reusable: Families, m: nat, revision: nat, nextId: Id)
    requires 2 <= m && f.leaves == [] && Layered(f.nodes, f.kids, Ids(f.leaves), f.roots, m)
    ensures var r := Plan(f.leaves, reusable, m, revision, nextId);
            r.layer == f.roots && r.draft.requests == []
              && r.draft.nodes.Keys == {} == Reached(f.nodes, Ids(f.leaves), m)
  {}

  lemma LeavesReached(f: Forest, m: nat)
    requires Settled(f, m)
    ensures Index(f.leaves).Keys <= f.nodes.Keys && Chronological(f.leaves)
  {}

  lemma SameKids(s: Source, f: Forest, d: Draft)
    requires Rooted(f.nodes, f.kids, f.roots, s.leaves.Keys) && Rooted(d.nodes, d.kids, f.roots, s.leaves.Keys)
    requires Mirrors(s.reusable, f.nodes, f.kids) && FamiliesKept(s, d.kids) && d.nodes.Keys == f.nodes.Keys
    requires forall id :: id in f.nodes ==> id < s.base
    ensures d.kids == f.kids
  {
    hide AllKeep, AllPlaced, Named, Detached;
    assert d.kids.Keys == d.nodes.Keys - s.leaves.Keys == f.kids.Keys;
  }

  lemma SameTable(s: Source, f: Forest, nodes: map<Id, Node>)
    requires Rooted(f.nodes, f.kids, f.roots, s.leaves.Keys) && Numbered(f.nodes, f.roots)
    requires Rooted(nodes, f.kids, f.roots, s.leaves.Keys) && Numbered(nodes, f.roots)
    requires nodes.Keys == f.nodes.Keys && s.before == f.nodes
    requires LeavesKept(s.leaves, nodes) && ParentsKept(s, nodes)
    requires forall id :: id in s.leaves && id in f.nodes ==> s.leaves[id].Content() == f.nodes[id].Content()
    requires forall id :: id in f.nodes ==> id < s.base
    ensures nodes == f.nodes
  {
    forall id | id in nodes ensures nodes[id] == f.nodes[id] {
      assert nodes[id].Content() == f.nodes[id].Content();
      SamePlace(f.nodes, nodes, f.kids, f.roots, s.leaves.Keys, id);
      SameNode(nodes[id], f.nodes[id]);
    }
  }

  lemma SameNode(a: Node, b: Node)
    requires a.Content() == b.Content() && a.parent == b.parent && a.order == b.order
    ensures a == b
  {
    assert a == a.Content().(parent := a.parent, order := a.order);
    assert b == b.Content().(parent := b.parent, order := b.order);
  }

  lemma SamePlace(before: map<Id, Node>, after: map<Id, Node>, kids: map<Id, seq<Id>>, roots: seq<Id>, leaves: set<Id>,
                  id: Id)
    requires Rooted(before, kids, roots, leaves) && Numbered(before, roots)
    requires Rooted(after, kids, roots, leaves) && Numbered(after, roots)
    requires id in before && id in after
    ensures before[id].parent == after[id].parent && before[id].order == after[id].order
  {
    if id in roots {
      var i :| 0 <= i < |roots| && roots[i] == id;
    } else {
      assert Placed(after, kids, id);
      assert Keeps(before, kids, after[id].parent.value);
    }
  }

  // ---------------------------------------------------------------- the new plan is settled in turn

  /** `after` is `before` with other titles and summaries. */
  ghost predicate Retitled(before: map<Id, Node>, after: map<Id, Node>) {
    && after.Keys == before.Keys
    && (forall id :: id in before ==>
          after[id].(title := None, summary := None) == before[id].(title := None, summary := None))
  }

  lemma RetitledPlace(before: map<Id, Node>, after: map<Id, Node>, id: Id)
    requires Retitled(before, after) && id in before
    ensures id in after && after[id].parent == before[id].parent && after[id].order == before[id].order
    ensures after[id].id == before[id].id && after[id].lo == before[id].lo && after[id].hi == before[id].hi
  {
    var a, b := after[id].(title := None, summary := None), before[id].(title := None, summary := None);
    assert a.parent == b.parent && a.order == b.order && a.id == b.id && a.lo == b.lo && a.hi == b.hi;
  }

  lemma RetitledRooted(before: map<Id, Node>, after: map<Id, Node>, kids: map<Id, seq<Id>>, roots: seq<Id>,
                       leaves: set<Id>)
    requires Retitled(before, after) && Rooted(before, kids, roots, leaves) && Numbered(before, roots)
    ensures Rooted(after, kids, roots, leaves) && Numbered(after, roots)
  {
    forall id | id in before
      ensures after[id].parent == before[id].parent && after[id].order == before[id].order
              && after[id].id == before[id].id
    {
      RetitledPlace(before, after, id);
    }
    forall q | q in kids ensures Keeps(after, kids, q) {
      RetitledKeeps(before, after, kids, q);
    }
    hide Retitled, Keeps;
  }

  lemma RetitledKeeps(before: map<Id, Node>, after: map<Id, Node>, kids: map<Id, seq<Id>>, q: Id)
    requires Retitled(before, after) && q in kids && Keeps(before, kids, q)
    ensures Keeps(after, kids, q)
  {
    var g := kids[q];
    RetitledPlace(before, after, q);
    forall j | 0 <= j < |g| ensures after[g[j]].parent == Some(q) && after[g[j]].order == j {
      RetitledPlace(before, after, g[j]);
    }
    RetitledPlace(before, after, g[0]);
    RetitledPlace(before, after, g[|g|-1]);
  }

  lemma {:induction false} RetitledAbove(before: map<Id, Node>, after: map<Id, Node>, kids: map<Id, seq<Id>>,
                                         layer: seq<Id>, m: nat)
    requires Retitled(before, after) && 2 <= m
    ensures Above(after, layer, m) == Above(before, layer, m)
    ensures Grouped(before, kids, layer, m) ==> Grouped(after, kids, layer, m)
    decreases |layer|
  {
    if |layer| >= 2 {
      var g := Head(layer, m);
      if g[0] in before { RetitledPlace(before, after, g[0]); }
      RetitledAbove(before, after, kids, Rest(layer, m), m);
    }
  }

  lemma {:induction false} RetitledLayered(before: map<Id, Node>, after: map<Id, Node>, kids: map<Id, seq<Id>>,
                                           layer: seq<Id>, top: seq<Id>, m: nat)
    requires Retitled(before, after) && 2 <= m && Layered(before, kids, layer, top, m)
    ensures Layered(after, kids, layer, top, m) && Reached(after, layer, m) == Reached(before, layer, m)
    decreases |layer|
  {
    if |layer| > m {
      WidthShrinks(|layer|, m);
      RetitledAbove(before, after, kids, layer, m);
      RetitledLayered(before, after, kids, Above(before, layer, m), top, m);
    }
  }

  /** `n` is still in the table, over the same messages. */
  ghost predicate KeepsSpan(titled: map<Id, Node>, n: Node) {
    n.id in titled && titled[n.id].id == n.id && titled[n.id].lo == n.lo && titled[n.id].hi == n.hi
  }

  /** The forest an index call publishes: the plan's table with titles filled in. */
  function PublishPlan(r: Climbed, titled: map<Id, Node>, leaves: seq<Node>): Forest
    requires forall n :: n in leaves ==> KeepsSpan(titled, n)
  {
    Forest(titled, r.draft.kids, r.layer,
           seq(|leaves|, i requires 0 <= i < |leaves| => assert KeepsSpan(titled, leaves[i]); titled[leaves[i].id]))
  }

  lemma PlanSettles(s: Source, leaves: seq<Node>, m: nat, revision: nat, nextId: Id, titled: map<Id, Node>)
    requires 2 <= m && Input(s, leaves, nextId) && Chronological(leaves)
    requires Retitled(Plan(leaves, s.reusable, m, revision, nextId).draft.nodes, titled)
    ensures forall n :: n in leaves ==> KeepsSpan(titled, n)
    ensures var f := PublishPlan(Plan(leaves, s.reusable, m, revision, nextId), titled, leaves);
            Settled(f, m) && Ids(f.leaves) == Ids(leaves)
  {
    var r := Plan(leaves, s.reusable, m, revision, nextId);
    PlanIsForest(s, leaves, m, revision, nextId);
    PlanIsLayered(s, leaves, m, revision, nextId);
    PlanKeepsContent(s, leaves, m, revision, nextId);
    LeafLayerIsIds(leaves);
    assert NoDup(Ids(leaves)) && s.leaves == Index(leaves) && Named(r.draft.nodes);
    hide *;
    PublishedParts(r.draft.nodes, r.draft.kids, r.layer, s.leaves.Keys, m);
    PublishSettles(r, leaves, m, titled);
  }

  lemma PublishSettles(r: Climbed, leaves: seq<Node>, m: nat, titled: map<Id, Node>)
    requires 2 <= m && Published(r.draft.nodes, r.draft.kids, r.layer, Index(leaves).Keys, m)
    requires Layered(r.draft.nodes, r.draft.kids, Ids(leaves), r.layer, m)
    requires r.draft.nodes.Keys == Reached(r.draft.nodes, Ids(leaves), m)
    requires LeavesKept(Index(leaves), r.draft.nodes) && NoDup(Ids(leaves)) && Chronological(leaves)
    requires Retitled(r.draft.nodes, titled)
    ensures forall n :: n in leaves ==> KeepsSpan(titled, n)
    ensures Settled(PublishPlan(r, titled, leaves), m) && Ids(PublishPlan(r, titled, leaves).leaves) == Ids(leaves)
  {
    PublishedParts(r.draft.nodes, r.draft.kids, r.layer, Index(leaves).Keys, m);
    assert Named(r.draft.nodes);
    PublishedLeaves(r, leaves, titled);
    var f := PublishPlan(r, titled, leaves);
    RetitledRooted(r.draft.nodes, titled, r.draft.kids, r.layer, Index(leaves).Keys);
    RetitledLayered(r.draft.nodes, titled, r.draft.kids, Ids(leaves), r.layer, m);
    SameIndexKeys(f.leaves, leaves);
    RetitledKeys(r.draft.nodes, titled);
    hide Rooted, Layered, Reached, Fanout, Retitled, LeavesKept, Index, Numbered, Published, Chronological, LeavesFiled;
    PublishedWhole(f.nodes, f.kids, f.roots, Index(f.leaves).Keys, m);
  }

  lemma PublishedLeaves(r: Climbed, leaves: seq<Node>, titled: map<Id, Node>)
    requires LeavesKept(Index(leaves), r.draft.nodes) && NoDup(Ids(leaves)) && Chronological(leaves)
    requires Retitled(r.draft.nodes, titled) && Named(r.draft.nodes)
    ensures forall n :: n in leaves ==> KeepsSpan(titled, n)
    ensures var f := PublishPlan(r, titled, leaves);
            Ids(f.leaves) == Ids(leaves) && Chronological(f.leaves) && LeavesFiled(titled, f.leaves)
  {
    hide LeavesKept, Retitled, Named, Index, NoDup, Ids;
    forall n | n in leaves ensures KeepsSpan(titled, n) {
      LeafKeepsSpan(Index(leaves), leaves, r.draft.nodes, n);
      RetitledPlace(r.draft.nodes, titled, n.id);
    }
    TitledLeaves(r, leaves, titled);
  }

  lemma TitledLeaves(r: Climbed, leaves: seq<Node>, titled: map<Id, Node>)
    requires Chronological(leaves) && forall n :: n in leaves ==> KeepsSpan(titled, n)
    ensures var f := PublishPlan(r, titled, leaves);
            Ids(f.leaves) == Ids(leaves) && Chronological(f.leaves) && LeavesFiled(titled, f.leaves)
  {
    var ls := PublishPlan(r, titled, leaves).leaves;
    forall i | 0 <= i < |leaves| ensures ls[i].id == leaves[i].id && ls[i].lo == leaves[i].lo {
      assert KeepsSpan(titled, leaves[i]);
    }
    forall n | n in ls ensures n.id in titled && titled[n.id] == n {
      var i :| 0 <= i < |ls| && ls[i] == n;
      assert KeepsSpan(titled, leaves[i]);
    }
    assert Ids(ls) == Ids(leaves);
  }

  lemma RetitledKeys(before: map<Id, Node>, after: map<Id, Node>)
    requires Retitled(before, after)
    ensures after.Keys == before.Keys
  {}

  lemma PublishedWhole(nodes: map<Id, Node>, kids: map<Id, seq<Id>>, roots: seq<Id>, leaves: set<Id>, m: nat)
    requires Rooted(nodes, kids, roots, leaves) && Numbered(nodes, roots) && Fanout(kids, m) && |roots| <= m
    ensures Published(nodes, kids, roots, leaves, m)
  {}

  lemma LeafKeepsSpan(kept: map<Id, Node>, leaves: seq<Node>, nodes: map<Id, Node>, n: Node)
    requires NoDup(Ids(leaves)) && kept == Index(leaves) && LeavesKept(kept, nodes) && Named(nodes) && n in leaves
    ensures KeepsSpan(nodes, n)
  {
    IndexFacts(leaves);
    assert nodes[n.id].Content() == kept[n.id].Content();
    assert nodes[n.id].Content().lo == kept[n.id].Content().lo && nodes[n.id].Content().hi == kept[n.id].Content().hi;
  }

  lemma SameIndexKeys(a: seq<Node>, b: seq<Node>)
    requires Ids(a) == Ids(b)
    ensures Index(a).Keys == Index(b).Keys
  {
    forall id ensures id in Index(a) <==> id in Index(b) {
      if id in Index(a) {
        var n :| n in a && n.id == id;
        var i :| 0 <= i < |a| && a[i] == n;
        assert Ids(a)[i] == Ids(b)[i] && b[i] in b;
      }
      if id in Index(b) {
        var n :| n in b && n.id == id;
        var i :| 0 <= i < |b| && b[i] == n;
        assert Ids(a)[i] == Ids(b)[i] && a[i] in a;
      }
    }
  }

  // ---------------------------------------------------------------- the order leaves are listed in

  lemma SameIndex(a: seq<Node>, b: seq<Node>)
    requires NoDup(Ids(a)) && NoDup(Ids(b)) && (forall n :: n in a <==> n in b)
    ensures Index(a) == Index(b)
  {
    IndexFacts(a);
    IndexFacts(b);
    forall id ensures id in Index(a) <==> id in Index(b) {}
    forall id | id in Index(a) ensures Index(a)[id] == Index(b)[id] {
      var n :| n in a && n.id == id;
    }
  }

  lemma IdsMultiset(a: seq<Node>, b: seq<Node>)
    requires multiset(a) == multiset(b) && NoDup(Ids(a))
    ensures NoDup(Ids(b))
  {
    SameMultiset(a, b);
    NoDupOfIds(a);
    NoDupMultiset(a);
    NoDupMultiset(b);
    forall i, j | 0 <= i < j < |b| ensures Ids(b)[i] != Ids(b)[j] {
      assert b[i] in a && b[j] in a && b[i] != b[j];
      DifferentIds(a, b[i], b[j]);
    }
  }

  lemma NoDupOfIds(a: seq<Node>)
    requires NoDup(Ids(a))
    ensures NoDup(a)
  {
    forall i, j | 0 <= i < j < |a| ensures a[i] != a[j] {
      assert Ids(a)[i] != Ids(a)[j];
    }
  }

  lemma DifferentIds(a: seq<Node>, x: Node, y: Node)
    requires NoDup(Ids(a)) && x in a && y in a && x != y
    ensures x.id != y.id
  {
    var i :| 0 <= i < |a| && a[i] == x;
    var j :| 0 <= j < |a| && a[j] == y;
    assert Ids(a)[i] == x.id && Ids(a)[j] == y.id;
  }

  /** Leaves may be listed in any order: the plan sorts them by where they start. */
  lemma PlanIgnoresLeafOrder(a: seq<Node>, b: seq<Node>, reusable: Families, m: nat, revision: nat, nextId: Id)
    requires 2 <= m && Chronological(a) && NoDup(Ids(a)) && multiset(a) == multiset(b)
    ensures Plan(b, reusable, m, revision, nextId) == Plan(a, reusable, m, revision, nextId)
  {
    var key := (n: Node) => n.lo;
    SameMultiset(a, b);
    IdsMultiset(a, b);
    SameIndex(a, b);
    SortBySorted(key, a);
    SortByFacts(key, b);
    NoDupOfIds(b);
    SortByNoDup(key, b);
    var sorted := SortBy(key, b);
    forall i, j | 0 <= i < j < |sorted| ensures key(sorted[i]) < key(sorted[j]) {
      assert key(sorted[i]) <= key(sorted[j]) && sorted[i] != sorted[j] && sorted[i] in a && sorted[j] in a;
      DifferentStarts(a, sorted[i], sorted[j]);
    }
    StrictlySortedUnique(key, sorted, a);
    hide Climb, Crown;
    assert LeafLayer(a) == LeafLayer(b);
  }

  lemma DifferentStarts(a: seq<Node>, x: Node, y: Node)
    requires Chronological(a) && x in a && y in a && x != y
    ensures x.lo != y.lo
  {
    var i :| 0 <= i < |a| && a[i] == x;
    var j :| 0 <= j < |a| && a[j] == y;
  }
}
