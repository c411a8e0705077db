/**
 * The chronological, bounded-fanout summary hierarchy (packages/python/src/cci/tree.py).
 *
 * The planner groups a layer of nodes, `m` at a time, under parents until at most `m` roots
 * remain.  A group whose children are exactly the children of a published parent gets that parent
 * back, title and summary included; any other group of two or more gets a new parent and a summary
 * request; a group of one passes up unchanged.  Identifiers are drawn from a counter.
 */
module Hierarchy {
  import opened Wrappers
  import opened Sequences

  type Id = nat

  datatype Node = Node(id: Id, parent: Option<Id>, order: nat, lo: nat, hi: nat,
                       title: Option<string>, summary: Option<string>, revision: nat)
  {
    /** Everything about a node except where it hangs. */
    function Content(): Node {
      this.(parent := None, order := 0)
    }
  }

  /** One entry of the planner's `summaries`: a new parent and the children it must summarise. */
  datatype Request = Request(parent: Id, children: seq<Id>)

  /** `kids` records the child list each parent was given; the source keeps it in the nodes only. */
  datatype Draft = Draft(nodes: map<Id, Node>, kids: map<Id, seq<Id>>, requests: seq<Request>, nextId: Id)

  datatype Climbed = Climbed(draft: Draft, layer: seq<Id>)

  /** Published parents by their exact child list. */
  type Families = map<seq<Id>, Node>

  ghost predicate Covers(nodes: map<Id, Node>, ids: seq<Id>) {
    forall id :: id in ids ==> id in nodes
  }

  /** How many groups of at most `m` a layer of `n` splits into. */
  function Width(n: nat, m: nat): nat
    requires 0 < m
  {
    if n <= m then (if n == 0 then 0 else 1) else 1 + Width(n - m, m)
  }

  /** How many layers of parents are built over `n` leaves. */
  function Height(n: nat, m: nat): nat
    requires 2 <= m
  {
    if n <= m then 0
    else
      WidthShrinks(n, m);
      1 + Height(Width(n, m), m)
  }

  lemma {:induction false} WidthShrinks(n: nat, m: nat)
    requires 2 <= m
    ensures Width(n, m) <= n
    ensures n > 1 ==> Width(n, m) < n
  {
    if n > m {
      WidthShrinks(n - m, m);
    }
  }

  function Pow(m: nat, k: nat): nat {
    if k == 0 then 1 else m * Pow(m, k - 1)
  }

  /** The groups cover the layer, and all but the last are full. */
  lemma {:induction false} WidthIsCeiling(n: nat, m: nat)
    requires 0 < m
    ensures n <= Width(n, m) * m
    ensures n > 0 ==> Width(n, m) > 0 && (Width(n, m) - 1) * m < n
  {
    if n > m {
      WidthIsCeiling(n - m, m);
      assert Width(n, m) * m == Width(n - m, m) * m + m;
      assert (Width(n, m) - 1) * m == (Width(n - m, m) - 1) * m + m;
    }
  }

  lemma PowUnfolds(m: nat, k: nat)
    ensures Pow(m, 0) == 1 && Pow(m, 1) == m && Pow(m, k + 1) == m * Pow(m, k)
  {
    assert Pow(m, 1) == m * Pow(m, 0);
  }

  lemma HeightUnfolds(n: nat, m: nat)
    requires 2 <= m
    ensures n <= m ==> Height(n, m) == 0
    ensures n > m ==> Width(n, m) < n && Height(n, m) == 1 + Height(Width(n, m), m)
  {
    WidthShrinks(n, m);
  }

  /** Between one bound and the next a layer of `w` groups stands for a layer of `n` nodes. */
  lemma GroupsScale(n: nat, m: nat, w: nat, below: nat, above: nat)
    requires w > 0 && n <= w * m && (w - 1) * m < n && w <= above
    ensures n <= m * above
    ensures below < w ==> m * below < n
  {
    assert w * m <= above * m;
    if below < w { assert below * m <= (w - 1) * m; }
  }

  /** The height of a plan is its size's logarithm, to the base of the fan-out, rounded up, less one. */
  lemma {:induction false} HeightIsLogarithm(n: nat, m: nat)
    requires 2 <= m
    ensures n <= Pow(m, Height(n, m) + 1)
    ensures Height(n, m) > 0 ==> Pow(m, Height(n, m)) < n
  {
    HeightUnfolds(n, m);
    WidthIsCeiling(n, m);
    PowUnfolds(m, 0);
    hide Pow, Height, Width;
    if n > m {
      var w := Width(n, m);
      var h := Height(w, m);
      HeightIsLogarithm(w, m);
      PowUnfolds(m, h);
      PowUnfolds(m, h + 1);
      GroupsScale(n, m, w, Pow(m, h), Pow(m, h + 1));
    }
  }

  // ---------------------------------------------------------------- the plan as a function

  function Head(layer: seq<Id>, m: nat): seq<Id> {
    if |layer| <= m then layer else layer[..m]
  }

  function Rest(layer: seq<Id>, m: nat): seq<Id> {
    if |layer| <= m then [] else layer[m..]
  }

  /** Children `g[from..]` are hung under `p`, numbered by position. */
  function Adopt(nodes: map<Id, Node>, g: seq<Id>, p: Id, from: nat): (r: map<Id, Node>)
    requires from <= |g| && Covers(nodes, g)
    ensures r.Keys == nodes.Keys
    decreases |g| - from
  {
    if from == |g| then nodes
    else Adopt(nodes[g[from] := nodes[g[from]].(parent := Some(p), order := from)], g, p, from + 1)
  }

  function ParentFor(d: Draft, g: seq<Id>, reusable: Families, revision: nat): Node
    requires g != [] && Covers(d.nodes, g)
  {
    if g in reusable then reusable[g]
    else Node(d.nextId, None, 0, d.nodes[g[0]].lo, d.nodes[g[|g|-1]].hi, None, None, revision)
  }

  function Join(d: Draft, g: seq<Id>, reusable: Families, revision: nat): (r: Draft)
    requires g != [] && Covers(d.nodes, g)
    ensures r.nodes.Keys == d.nodes.Keys + {ParentFor(d, g, reusable, revision).id}
  {
    var p := ParentFor(d, g, reusable, revision);
    var nodes := Adopt(d.nodes[p.id := p.(parent := None)], g, p.id, 0);
    if g in reusable then d.(nodes := nodes, kids := d.kids[p.id := g])
    else Draft(nodes, d.kids[p.id := g], d.requests + [Request(p.id, g)], d.nextId + 1)
  }

  /** One pass over a layer, left to right. */
  function GroupLayer(d: Draft, layer: seq<Id>, m: nat, reusable: Families, revision: nat): (r: Climbed)
    requires 2 <= m && Covers(d.nodes, layer)
    ensures d.nodes.Keys <= r.draft.nodes.Keys && Covers(r.draft.nodes, r.layer)
    ensures |r.layer| == Width(|layer|, m)
    decreases |layer|
  {
    if layer == [] then Climbed(d, [])
    else
      var g := Head(layer, m);
      if |g| == 1 then
        var r := GroupLayer(d, Rest(layer, m), m, reusable, revision);
        Climbed(r.draft, g + r.layer)
      else
        var p := ParentFor(d, g, reusable, revision).id;
        var r := GroupLayer(Join(d, g, reusable, revision), Rest(layer, m), m, reusable, revision);
        Climbed(r.draft, [p] + r.layer)
  }

  /** Layers are grouped until at most `m` nodes remain. */
  function Climb(d: Draft, layer: seq<Id>, m: nat, reusable: Families, revision: nat): (r: Climbed)
    requires 2 <= m && Covers(d.nodes, layer)
    ensures Covers(r.draft.nodes, r.layer) && |r.layer| <= m
    decreases |layer|
  {
    if |layer| <= m then Climbed(d, layer)
    else
      var up := GroupLayer(d, layer, m, reusable, revision);
      WidthShrinks(|layer|, m);
      Climb(up.draft, up.layer, m, reusable, revision)
  }

  /** Roots `layer[from..]` are numbered by position. */
  function Crown(nodes: map<Id, Node>, layer: seq<Id>, from: nat): (r: map<Id, Node>)
    requires from <= |layer| && Covers(nodes, layer)
    ensures r.Keys == nodes.Keys
    decreases |layer| - from
  {
    if from == |layer| then nodes
    else Crown(nodes[layer[from] := nodes[layer[from]].(parent := None, order := from)], layer, from + 1)
  }

  /** The leaves by identifier, detached. */
  function Index(leaves: seq<Node>): (r: map<Id, Node>)
    ensures forall id :: id in r <==> exists n :: n in leaves && n.id == id
  {
    if leaves == [] then map[]
    else
      var n := leaves[|leaves|-1];
      assert leaves == leaves[..|leaves|-1] + [n];
      Index(leaves[..|leaves|-1])[n.id := n.(parent := None)]
  }

  function Ids(ns: seq<Node>): (r: seq<Id>)
    ensures |r| == |ns| && forall i :: 0 <= i < |ns| ==> r[i] == ns[i].id
  {
    seq(|ns|, i requires 0 <= i < |ns| => ns[i].id)
  }

  /** The leaves in chronological order. */
  function LeafLayer(leaves: seq<Node>): seq<Id> {
    Ids(SortBy((n: Node) => n.lo, leaves))
  }

  lemma LeafLayerCovered(leaves: seq<Node>)
    ensures Covers(Index(leaves), LeafLayer(leaves))
    ensures |LeafLayer(leaves)| == |leaves|
    ensures Elements(LeafLayer(leaves)) == Index(leaves).Keys
  {
    var s := SortBy((n: Node) => n.lo, leaves);
    SortByFacts((n: Node) => n.lo, leaves);
    forall id ensures id in LeafLayer(leaves) <==> id in Index(leaves) {
      if id in LeafLayer(leaves) {
        var i :| 0 <= i < |s| && Ids(s)[i] == id;
        assert s[i] in leaves;
      }
      if id in Index(leaves) {
        var n :| n in leaves && n.id == id;
        assert n in s;
        var i :| 0 <= i < |s| && s[i] == n;
        assert LeafLayer(leaves)[i] == id;
      }
    }
  }

  /** The whole plan over `leaves`, given the families that may be reused. */
  function Plan(leaves: seq<Node>, reusable: Families, m: nat, revision: nat, nextId: Id): (r: Climbed)
    requires 2 <= m
    ensures |r.layer| <= m && Covers(r.draft.nodes, r.layer)
  {
    LeafLayerCovered(leaves);
    var top := Climb(Draft(Index(leaves), map[], [], nextId), LeafLayer(leaves), m, reusable, revision);
    Climbed(top.draft.(nodes := Crown(top.draft.nodes, top.layer, 0)), top.layer)
  }
}
