/** What the planner makes anew, and that it makes nothing it could reuse (packages/python/src/cci/tree.py). */
module HierarchyMade {
  import opened Wrappers
  import opened Sequences
  import opened Hierarchy
  import opened HierarchyForest
  import opened HierarchyReuse

  /** Nodes numbered from `base` on are blank, and dated with the coming revision. */
  ghost predicate Blank(nodes: map<Id, Node>, base: Id, revision: nat) {
    forall id :: id in nodes && base <= id ==>
      nodes[id].title == None && nodes[id].summary == None && nodes[id].revision == revision
  }

  /** A child list that some published parent had is that parent's again. */
  ghost predicate ReusesAll(kids: map<Id, seq<Id>>, reusable: Families) {
    forall p :: p in kids && kids[p] in reusable ==> reusable[kids[p]].id == p
  }

  ghost predicate OldFamilies(reusable: Families, base: Id) {
    forall g :: g in reusable ==> reusable[g].id < base
  }

  lemma {:induction false} AdoptContent(nodes: map<Id, Node>, g: seq<Id>, p: Id, from: nat)
    requires from <= |g| && Covers(nodes, g)
    ensures forall id :: id in nodes ==> Adopt(nodes, g, p, from)[id].Content() == nodes[id].Content()
    decreases |g| - from
  {
    if from < |g| {
      var next := nodes[g[from] := nodes[g[from]].(parent := Some(p), order := from)];
      assert Covers(next, g);
      AdoptContent(next, g, p, from + 1);
    }
  }

  lemma SameBlank(a: map<Id, Node>, b: map<Id, Node>, base: Id, revision: nat)
    requires Blank(a, base, revision) && a.Keys == b.Keys
    requires forall id :: id in a ==> b[id].Content() == a[id].Content()
    ensures Blank(b, base, revision)
  {
    forall id | id in b && base <= id
      ensures b[id].title == None && b[id].summary == None && b[id].revision == revision
    {
      assert b[id].Content().title == a[id].Content().title && b[id].Content().summary == a[id].Content().summary;
      assert b[id].Content().revision == a[id].Content().revision;
    }
  }

  lemma JoinMakes(d: Draft, g: seq<Id>, reusable: Families, revision: nat, base: Id)
    requires g != [] && Covers(d.nodes, g) && OldFamilies(reusable, base)
    requires Blank(d.nodes, base, revision) && ReusesAll(d.kids, reusable)
    requires g in reusable || d.nextId !in d.kids
    ensures Blank(Join(d, g, reusable, revision).nodes, base, revision)
    ensures ReusesAll(Join(d, g, reusable, revision).kids, reusable)
  {
    var p := ParentFor(d, g, reusable, revision);
    var nodes := d.nodes[p.id := p.(parent := None)];
    assert Covers(nodes, g);
    AdoptContent(nodes, g, p.id, 0);
    SameBlank(nodes, Adopt(nodes, g, p.id, 0), base, revision);
  }

  lemma {:induction false} GroupLayerMakes(s: Source, d: Draft, pre: seq<Id>, layer: seq<Id>, m: nat, revision: nat)
    requires 2 <= m && Reliable(s) && Sound(s, d, pre + layer, m) && Covers(d.nodes, layer)
    requires OldFamilies(s.reusable, s.base) && Blank(d.nodes, s.base, revision) && ReusesAll(d.kids, s.reusable)
    ensures var r := GroupLayer(d, layer, m, s.reusable, revision).draft;
            Blank(r.nodes, s.base, revision) && ReusesAll(r.kids, s.reusable)
    decreases |layer|
  {
    hide *;
    GroupLayerCases(d, layer, m, s.reusable, revision);
    if |layer| >= 2 {
      var g, rest := Head(layer, m), Rest(layer, m);
      assert pre + layer == pre + g + rest;
      JoinSound(s, d, pre, g, rest, m, revision);
      NextIsNew(d, g, s.reusable, revision);
      JoinMakes(d, g, s.reusable, revision, s.base);
      GroupLayerMakes(s, Join(d, g, s.reusable, revision), pre + [ParentFor(d, g, s.reusable, revision).id], rest, m,
                      revision);
    }
  }

  lemma NextIsNew(d: Draft, g: seq<Id>, reusable: Families, revision: nat)
    requires g != [] && Covers(d.nodes, g) && ParentFor(d, g, reusable, revision).id !in d.kids
    ensures g in reusable || d.nextId !in d.kids
  {}

  lemma {:induction false} ClimbMakes(s: Source, d: Draft, layer: seq<Id>, m: nat, revision: nat)
    requires 2 <= m && Reliable(s) && Sound(s, d, layer, m) && Covers(d.nodes, layer)
    requires OldFamilies(s.reusable, s.base) && Blank(d.nodes, s.base, revision) && ReusesAll(d.kids, s.reusable)
    ensures var r := Climb(d, layer, m, s.reusable, revision).draft;
            Blank(r.nodes, s.base, revision) && ReusesAll(r.kids, s.reusable)
    decreases |layer|
  {
    hide *;
    ClimbCases(d, layer, m, s.reusable, revision);
    if |layer| > m {
      WidthShrinks(|layer|, m);
      assert [] + layer == layer;
      GroupLayerSound(s, d, [], layer, m, revision);
      GroupLayerMakes(s, d, [], layer, m, revision);
      var up := GroupLayer(d, layer, m, s.reusable, revision);
      assert [] + up.layer == up.layer;
      ClimbMakes(s, up.draft, up.layer, m, revision);
    }
  }

  /**
   * In any plan the nodes made anew are blank and carry the coming revision, and a group that was some published
   * parent's child list has that parent again.
   */
  lemma PlanMakes(s: Source, leaves: seq<Node>, m: nat, revision: nat, nextId: Id)
    requires 2 <= m && Input(s, leaves, nextId)
    ensures var d := Plan(leaves, s.reusable, m, revision, nextId).draft;
            Blank(d.nodes, s.base, revision) && ReusesAll(d.kids, s.reusable)
  {
    var start := Draft(Index(leaves), map[], [], nextId);
    StartSound(s, leaves, m, nextId);
    LeafLayerCovered(leaves);
    StartBlank(s, leaves, nextId, revision);
    ClimbSound(s, start, LeafLayer(leaves), m, revision);
    hide *;
    ClimbMakes(s, start, LeafLayer(leaves), m, revision);
    var top := Climb(start, LeafLayer(leaves), m, s.reusable, revision);
    OpenDistinct(s, top.draft, top.layer, m);
    CrownContent(top.draft.nodes, top.layer);
    SameBlank(top.draft.nodes, Crown(top.draft.nodes, top.layer, 0), s.base, revision);
    PlanIsCrowned(leaves, s.reusable, m, revision, nextId);
  }

  lemma StartBlank(s: Source, leaves: seq<Node>, nextId: Id, revision: nat)
    requires Input(s, leaves, nextId)
    ensures Blank(Index(leaves), s.base, revision) && ReusesAll(map[], s.reusable) && OldFamilies(s.reusable, s.base)
    ensures Reliable(s)
  {
    forall g | g in s.reusable ensures s.reusable[g].id < s.base { assert Reusing(s, g); }
  }

  lemma OpenDistinct(s: Source, d: Draft, open: seq<Id>, m: nat)
    requires Sound(s, d, open, m)
    ensures NoDup(open)
  {}

  lemma PlanIsCrowned(leaves: seq<Node>, reusable: Families, m: nat, revision: nat, nextId: Id)
    requires 2 <= m && Covers(Index(leaves), LeafLayer(leaves))
    ensures var top := Climb(Draft(Index(leaves), map[], [], nextId), LeafLayer(leaves), m, reusable, revision);
            Plan(leaves, reusable, m, revision, nextId) ==
              Climbed(top.draft.(nodes := Crown(top.draft.nodes, top.layer, 0)), top.layer)
  {}
}
