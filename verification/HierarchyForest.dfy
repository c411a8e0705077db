/** The planner always yields an ordered forest over the leaves it was given. */
module HierarchyForest {
  import opened Wrappers
  import opened Sequences
  import opened Hierarchy

  // ---------------------------------------------------------------- what a forest is

  /** `id` hangs under its parent at the position the child list gives it. */
  ghost predicate Placed(nodes: map<Id, Node>, kids: map<Id, seq<Id>>, id: Id)
    requires id in nodes
  {
    var n := nodes[id];
    n.parent.Some? && n.parent.value in kids && n.order < |kids[n.parent.value]| &&
    kids[n.parent.value][n.order] == id
  }

  /** `q` is a parent: two or more numbered children, and its range is their hull. */
  ghost predicate Keeps(nodes: map<Id, Node>, kids: map<Id, seq<Id>>, q: Id)
    requires q in kids
  {
    var g := kids[q];
    q in nodes && |g| >= 2 && Covers(nodes, g) &&
    (forall j :: 0 <= j < |g| ==> nodes[g[j]].parent == Some(q) && nodes[g[j]].order == j) &&
    nodes[q].lo == nodes[g[0]].lo && nodes[q].hi == nodes[g[|g|-1]].hi
  }

  ghost predicate Named(nodes: map<Id, Node>) {
    forall id :: id in nodes ==> nodes[id].id == id
  }

  ghost predicate Detached(nodes: map<Id, Node>, open: seq<Id>) {
    forall id :: id in open ==> id in nodes && nodes[id].parent == None
  }

  ghost predicate AllPlaced(nodes: map<Id, Node>, kids: map<Id, seq<Id>>, open: seq<Id>) {
    forall id :: id in nodes && id !in open ==> Placed(nodes, kids, id)
  }

  ghost predicate AllKeep(nodes: map<Id, Node>, kids: map<Id, seq<Id>>) {
    forall q :: q in kids ==> Keeps(nodes, kids, q)
  }

  /** `open` are the detached roots, everything else hangs in its place, and `leaves` have no children. */
  ghost predicate Rooted(nodes: map<Id, Node>, kids: map<Id, seq<Id>>, open: seq<Id>, leaves: set<Id>) {
    NoDup(open) && Named(nodes) && Detached(nodes, open) && AllPlaced(nodes, kids, open) && AllKeep(nodes, kids) &&
    nodes.Keys == kids.Keys + leaves && kids.Keys !! leaves
  }

  /** What the planner may assume: a previous table `before`, the leaves by id, and an id bound `base`. */
  datatype Source = Source(reusable: Families, before: map<Id, Node>, leaves: map<Id, Node>, base: Id)

  ghost predicate Reusing(s: Source, g: seq<Id>)
    requires g in s.reusable
  {
    var p := s.reusable[g];
    |g| >= 2 && Covers(s.before, g) && p.id in s.before && s.before[p.id] == p && p.id !in s.leaves &&
    p.lo == s.before[g[0]].lo && p.hi == s.before[g[|g|-1]].hi
  }

  ghost predicate AllReusing(s: Source) {
    forall g :: g in s.reusable ==> Reusing(s, g)
  }

  ghost predicate OneFamilyEach(reusable: Families) {
    forall g, h :: g in reusable && h in reusable && reusable[g].id == reusable[h].id ==> g == h
  }

  ghost predicate OldIds(s: Source) {
    forall id :: id in s.before ==> id < s.base && s.before[id].id == id
  }

  ghost predicate LeavesAgree(s: Source) {
    && (forall id :: id in s.leaves ==> id < s.base && s.leaves[id].id == id && s.leaves[id].parent == None)
    && (forall id :: id in s.before && id in s.leaves ==> s.before[id].Content() == s.leaves[id].Content())
  }

  ghost predicate Reliable(s: Source) {
    AllReusing(s) && OneFamilyEach(s.reusable) && OldIds(s) && LeavesAgree(s)
  }

  ghost predicate LeavesKept(leaves: map<Id, Node>, nodes: map<Id, Node>) {
    forall id :: id in leaves ==> id in nodes && nodes[id].Content() == leaves[id].Content()
  }

  ghost predicate ParentsKept(s: Source, nodes: map<Id, Node>) {
    forall id :: id in nodes && id !in s.leaves && id < s.base ==>
      id in s.before && nodes[id].Content() == s.before[id].Content()
  }

  ghost predicate FamiliesKept(s: Source, kids: map<Id, seq<Id>>) {
    forall q :: q in kids && q < s.base ==> kids[q] in s.reusable && s.reusable[kids[q]].id == q
  }

  /** Every node in the draft is a given leaf, an unchanged previous parent, or newly created. */
  ghost predicate Sourced(s: Source, d: Draft) {
    s.base <= d.nextId && (forall id :: id in d.nodes ==> id < d.nextId) &&
    LeavesKept(s.leaves, d.nodes) && ParentsKept(s, d.nodes) && FamiliesKept(s, d.kids)
  }

  /** Request `i` is for a new parent that is younger than all of its children. */
  ghost predicate Asks(base: Id, d: Draft, i: nat)
    requires i < |d.requests|
  {
    var q := d.requests[i].parent;
    base <= q < d.nextId && q in d.kids && d.kids[q] == d.requests[i].children && forall c :: c in d.kids[q] ==> c < q
  }

  ghost predicate AskedFor(requests: seq<Request>, q: Id) {
    exists i :: 0 <= i < |requests| && requests[i].parent == q
  }

  /** Requests name exactly the new parents, oldest first, each after all of its children. */
  ghost predicate Requested(base: Id, d: Draft) {
    && (forall i :: 0 <= i < |d.requests| ==> Asks(base, d, i))
    && (forall i, j :: 0 <= i < j < |d.requests| ==> d.requests[i].parent < d.requests[j].parent)
    && (forall q :: q in d.kids && base <= q ==> AskedFor(d.requests, q))
  }

  ghost predicate Fanout(kids: map<Id, seq<Id>>, m: nat) {
    forall q :: q in kids ==> |kids[q]| <= m
  }

  ghost predicate Sound(s: Source, d: Draft, open: seq<Id>, m: nat) {
    Rooted(d.nodes, d.kids, open, s.leaves.Keys) && Sourced(s, d) && Requested(s.base, d) && Fanout(d.kids, m)
  }

  // ---------------------------------------------------------------- one group

  lemma {:induction false} AdoptFacts(nodes: map<Id, Node>, g: seq<Id>, p: Id, from: nat)
    requires from <= |g| && Covers(nodes, g) && NoDup(g)
    ensures forall j :: from <= j < |g| ==>
              Adopt(nodes, g, p, from)[g[j]] == nodes[g[j]].(parent := Some(p), order := j)
    ensures forall id :: id in nodes && id !in g[from..] ==> Adopt(nodes, g, p, from)[id] == nodes[id]
    decreases |g| - from
  {
    if from < |g| {
      AdoptFacts(nodes[g[from] := nodes[g[from]].(parent := Some(p), order := from)], g, p, from + 1);
      assert g[from..] == [g[from]] + g[from+1..];
    }
  }

  /** A group's parent is never already in the draft: published families do not overlap open nodes. */
  lemma ParentIsNew(s: Source, d: Draft, open: seq<Id>, g: seq<Id>, m: nat, revision: nat)
    requires Reliable(s) && Sound(s, d, open, m) && |g| >= 2 && (forall id :: id in g ==> id in open)
    ensures Covers(d.nodes, g)
    ensures ParentFor(d, g, s.reusable, revision).id !in d.nodes
    ensures ParentFor(d, g, s.reusable, revision).lo == d.nodes[g[0]].lo
    ensures ParentFor(d, g, s.reusable, revision).hi == d.nodes[g[|g|-1]].hi
  {
    if g in s.reusable {
      assert Reusing(s, g);
      var p := s.reusable[g].id;
      assert g[0] in open && g[|g|-1] in open;
      SameRange(s, d, g[0]);
      SameRange(s, d, g[|g|-1]);
      forall q | q in d.kids ensures d.nodes[d.kids[q][0]].parent == Some(q) {
        assert Keeps(d.nodes, d.kids, q);
      }
      assert g[0] in open;
    }
  }

  lemma SameRange(s: Source, d: Draft, id: Id)
    requires Reliable(s) && Sourced(s, d) && id in d.nodes && id in s.before
    ensures d.nodes[id].lo == s.before[id].lo && d.nodes[id].hi == s.before[id].hi
  {
    assert id < s.base;
    assert d.nodes[id].Content() == s.before[id].Content();
    assert d.nodes[id].Content().lo == s.before[id].Content().lo;
    assert d.nodes[id].Content().hi == s.before[id].Content().hi;
  }

  /** `nodes2`/`kids2` are `nodes`/`kids` with the new parent `p` put above the group `g`. */
  ghost predicate Hung(nodes: map<Id, Node>, kids: map<Id, seq<Id>>, nodes2: map<Id, Node>,
                       kids2: map<Id, seq<Id>>, p: Node, g: seq<Id>)
  {
    && nodes2.Keys == nodes.Keys + {p.id} && p.id !in nodes && Covers(nodes, g)
    && nodes2[p.id] == p.(parent := None)
    && (forall j :: 0 <= j < |g| ==> nodes2[g[j]] == nodes[g[j]].(parent := Some(p.id), order := j))
    && (forall id :: id in nodes && id !in g ==> nodes2[id] == nodes[id])
    && kids2 == kids[p.id := g]
  }

  lemma JoinHangs(d: Draft, g: seq<Id>, reusable: Families, revision: nat)
    requires |g| >= 2 && Covers(d.nodes, g) && NoDup(g)
    requires ParentFor(d, g, reusable, revision).id !in d.nodes
    ensures var r := Join(d, g, reusable, revision);
            Hung(d.nodes, d.kids, r.nodes, r.kids, ParentFor(d, g, reusable, revision), g)
  {
    var p := ParentFor(d, g, reusable, revision);
    assert p.id !in g;
    AdoptFacts(d.nodes[p.id := p.(parent := None)], g, p.id, 0);
    assert g[0..] == g;
  }

  lemma HungContent(nodes: map<Id, Node>, kids: map<Id, seq<Id>>, nodes2: map<Id, Node>,
                    kids2: map<Id, seq<Id>>, p: Node, g: seq<Id>, id: Id)
    requires Hung(nodes, kids, nodes2, kids2, p, g) && id in nodes
    ensures nodes2[id].Content() == nodes[id].Content()
    ensures nodes2[id].id == nodes[id].id && nodes2[id].lo == nodes[id].lo && nodes2[id].hi == nodes[id].hi
  {
    if id in g {
      var j :| 0 <= j < |g| && g[j] == id;
      assert nodes2[g[j]] == nodes[g[j]].(parent := Some(p.id), order := j);
    }
  }

  lemma HungKeeps(nodes: map<Id, Node>, kids: map<Id, seq<Id>>, nodes2: map<Id, Node>,
                  kids2: map<Id, seq<Id>>, p: Node, g: seq<Id>, q: Id)
    requires Hung(nodes, kids, nodes2, kids2, p, g) && q in kids && Keeps(nodes, kids, q)
    requires forall id :: id in g ==> nodes[id].parent == None
    ensures q in kids2 && Keeps(nodes2, kids2, q)
  {
    var h := kids[q];
    assert q != p.id;
    forall j | 0 <= j < |h| ensures h[j] !in g && nodes2[h[j]] == nodes[h[j]] {
      assert nodes[h[j]].parent == Some(q);
    }
    HungContent(nodes, kids, nodes2, kids2, p, g, q);
  }

  lemma HungKeepsNew(nodes: map<Id, Node>, kids: map<Id, seq<Id>>, nodes2: map<Id, Node>,
                     kids2: map<Id, seq<Id>>, p: Node, g: seq<Id>)
    requires Hung(nodes, kids, nodes2, kids2, p, g) && |g| >= 2
    requires p.lo == nodes[g[0]].lo && p.hi == nodes[g[|g|-1]].hi
    ensures Keeps(nodes2, kids2, p.id)
  {
    HungContent(nodes, kids, nodes2, kids2, p, g, g[0]);
    HungContent(nodes, kids, nodes2, kids2, p, g, g[|g|-1]);
  }

  lemma HungPlaced(nodes: map<Id, Node>, kids: map<Id, seq<Id>>, nodes2: map<Id, Node>,
                   kids2: map<Id, seq<Id>>, p: Node, g: seq<Id>, id: Id)
    requires Hung(nodes, kids, nodes2, kids2, p, g) && id in nodes && p.id !in kids
    requires id !in g ==> Placed(nodes, kids, id)
    ensures Placed(nodes2, kids2, id)
  {
    if id in g {
      var j :| 0 <= j < |g| && g[j] == id;
      assert nodes2[g[j]].order == j;
    }
  }

  lemma HungRooted(nodes: map<Id, Node>, kids: map<Id, seq<Id>>, nodes2: map<Id, Node>,
                   kids2: map<Id, seq<Id>>, p: Node, pre: seq<Id>, g: seq<Id>, rest: seq<Id>, leaves: set<Id>)
    requires Hung(nodes, kids, nodes2, kids2, p, g) && |g| >= 2
    requires Rooted(nodes, kids, pre + g + rest, leaves)
    requires p.lo == nodes[g[0]].lo && p.hi == nodes[g[|g|-1]].hi
    ensures Rooted(nodes2, kids2, pre + [p.id] + rest, leaves)
  {
    assert forall id :: id in g ==> nodes[id].parent == None by { GroupIsOpen(pre, g, rest); }
    assert NoDup(pre + [p.id] + rest) by { OpenAfterJoin(pre, g, rest, p.id); }
    HungPartition(nodes, kids, nodes2, kids2, p, g, leaves);
    HungDetached(nodes, kids, nodes2, kids2, p, pre, g, rest);
    HungNamed(nodes, kids, nodes2, kids2, p, g);
    HungAllPlaced(nodes, kids, nodes2, kids2, p, pre, g, rest);
    HungAllKeep(nodes, kids, nodes2, kids2, p, g);
  }

  lemma HungPartition(nodes: map<Id, Node>, kids: map<Id, seq<Id>>, nodes2: map<Id, Node>,
                      kids2: map<Id, seq<Id>>, p: Node, g: seq<Id>, leaves: set<Id>)
    requires Hung(nodes, kids, nodes2, kids2, p, g)
    requires nodes.Keys == kids.Keys + leaves && kids.Keys !! leaves
    ensures nodes2.Keys == kids2.Keys + leaves && kids2.Keys !! leaves
  {}

  lemma HungNamed(nodes: map<Id, Node>, kids: map<Id, seq<Id>>, nodes2: map<Id, Node>,
                  kids2: map<Id, seq<Id>>, p: Node, g: seq<Id>)
    requires Hung(nodes, kids, nodes2, kids2, p, g) && Named(nodes)
    ensures Named(nodes2)
  {
    forall id | id in nodes2 ensures nodes2[id].id == id {
      if id != p.id { HungContent(nodes, kids, nodes2, kids2, p, g, id); }
    }
  }

  lemma HungAllPlaced(nodes: map<Id, Node>, kids: map<Id, seq<Id>>, nodes2: map<Id, Node>,
                      kids2: map<Id, seq<Id>>, p: Node, pre: seq<Id>, g: seq<Id>, rest: seq<Id>)
    requires Hung(nodes, kids, nodes2, kids2, p, g) && p.id !in kids && p.id !in pre + g + rest
    requires NoDup(pre + g + rest) && AllPlaced(nodes, kids, pre + g + rest)
    ensures AllPlaced(nodes2, kids2, pre + [p.id] + rest)
  {
    OpenAfterJoin(pre, g, rest, p.id);
    forall id | id in nodes2 && id !in pre + [p.id] + rest ensures Placed(nodes2, kids2, id) {
      HungPlaced(nodes, kids, nodes2, kids2, p, g, id);
    }
  }

  lemma HungDetached(nodes: map<Id, Node>, kids: map<Id, seq<Id>>, nodes2: map<Id, Node>,
                     kids2: map<Id, seq<Id>>, p: Node, pre: seq<Id>, g: seq<Id>, rest: seq<Id>)
    requires Hung(nodes, kids, nodes2, kids2, p, g)
    requires NoDup(pre + g + rest) && Detached(nodes, pre + g + rest)
    ensures Detached(nodes2, pre + [p.id] + rest)
  {
    OpenAfterJoin(pre, g, rest, p.id);
  }

  lemma HungAllKeep(nodes: map<Id, Node>, kids: map<Id, seq<Id>>, nodes2: map<Id, Node>,
                    kids2: map<Id, seq<Id>>, p: Node, g: seq<Id>)
    requires Hung(nodes, kids, nodes2, kids2, p, g) && |g| >= 2 && AllKeep(nodes, kids)
    requires p.lo == nodes[g[0]].lo && p.hi == nodes[g[|g|-1]].hi
    requires forall id :: id in g ==> nodes[id].parent == None
    ensures AllKeep(nodes2, kids2)
  {
    HungKeepsNew(nodes, kids, nodes2, kids2, p, g);
    forall q | q in kids2 ensures Keeps(nodes2, kids2, q) {
      if q != p.id { HungKeeps(nodes, kids, nodes2, kids2, p, g, q); }
    }
  }

  lemma JoinRooted(s: Source, d: Draft, pre: seq<Id>, g: seq<Id>, rest: seq<Id>, m: nat, revision: nat)
    requires Reliable(s) && Sound(s, d, pre + g + rest, m) && 2 <= |g| <= m
    ensures Covers(d.nodes, g)
    ensures var p := ParentFor(d, g, s.reusable, revision).id;
            var r := Join(d, g, s.reusable, revision);
            p !in d.nodes && Rooted(r.nodes, r.kids, pre + [p] + rest, s.leaves.Keys) && Fanout(r.kids, m)
  {
    GroupIsOpen(pre, g, rest);
    ParentIsNew(s, d, pre + g + rest, g, m, revision);
    JoinHangs(d, g, s.reusable, revision);
    var r := Join(d, g, s.reusable, revision);
    HungRooted(d.nodes, d.kids, r.nodes, r.kids, ParentFor(d, g, s.reusable, revision), pre, g, rest, s.leaves.Keys);
  }

  lemma GroupIsOpen(pre: seq<Id>, g: seq<Id>, rest: seq<Id>)
    requires NoDup(pre + g + rest)
    ensures NoDup(g) && forall id :: id in g ==> id in pre + g + rest
  {
    var open := pre + g + rest;
    forall j | 0 <= j < |g| ensures g[j] == open[|pre| + j] {}
  }

  lemma OpenAfterJoin(pre: seq<Id>, g: seq<Id>, rest: seq<Id>, p: Id)
    requires NoDup(pre + g + rest) && p !in pre + g + rest
    ensures NoDup(pre + [p] + rest)
    ensures forall id :: id in pre + [p] + rest <==> id == p || (id in pre + g + rest && id !in g)
  {
    var open, next := pre + g + rest, pre + [p] + rest;
    forall i | 0 <= i < |next| ensures next[i] == p || (next[i] in open && next[i] !in g) {
      if i < |pre| {
        assert open[i] == next[i];
        forall j | 0 <= j < |g| ensures g[j] != next[i] { assert open[|pre| + j] == g[j]; }
      } else if i > |pre| {
        assert open[i - 1 + |g|] == next[i];
        forall j | 0 <= j < |g| ensures g[j] != next[i] { assert open[|pre| + j] == g[j]; }
      }
    }
    forall id | id == p || (id in open && id !in g) ensures id in next {
      if id == p {
        assert next[|pre|] == p;
      } else {
        var i :| 0 <= i < |open| && open[i] == id;
        if i < |pre| { assert next[i] == id; }
        else if i >= |pre| + |g| { assert next[i - |g| + 1] == id; }
      }
    }
    forall i, j | 0 <= i < j < |next| ensures next[i] != next[j] {
      var oi := if i < |pre| then i else i - 1 + |g|;
      var oj := if j < |pre| then j else j - 1 + |g|;
      if i != |pre| { assert next[i] == open[oi]; }
      if j != |pre| { assert next[j] == open[oj]; }
    }
  }

  lemma HungLeavesKept(leaves: map<Id, Node>, nodes: map<Id, Node>, kids: map<Id, seq<Id>>, nodes2: map<Id, Node>,
                       kids2: map<Id, seq<Id>>, p: Node, g: seq<Id>)
    requires Hung(nodes, kids, nodes2, kids2, p, g) && LeavesKept(leaves, nodes)
    ensures LeavesKept(leaves, nodes2)
  {
    forall id | id in leaves ensures id in nodes2 && nodes2[id].Content() == leaves[id].Content() {
      HungContent(nodes, kids, nodes2, kids2, p, g, id);
    }
  }

  lemma HungParentsKept(s: Source, nodes: map<Id, Node>, kids: map<Id, seq<Id>>, nodes2: map<Id, Node>,
                        kids2: map<Id, seq<Id>>, p: Node, g: seq<Id>)
    requires Hung(nodes, kids, nodes2, kids2, p, g) && ParentsKept(s, nodes)
    requires p.id < s.base ==> p.id in s.before && p.Content() == s.before[p.id].Content()
    ensures ParentsKept(s, nodes2)
  {
    forall id | id in nodes2 && id !in s.leaves && id < s.base
      ensures id in s.before && nodes2[id].Content() == s.before[id].Content()
    {
      if id != p.id { HungContent(nodes, kids, nodes2, kids2, p, g, id); }
    }
  }

  lemma JoinSourced(s: Source, d: Draft, open: seq<Id>, g: seq<Id>, m: nat, revision: nat)
    requires Reliable(s) && Sound(s, d, open, m) && |g| >= 2 && NoDup(g) && (forall id :: id in g ==> id in open)
    ensures Covers(d.nodes, g)
    ensures Sourced(s, Join(d, g, s.reusable, revision))
  {
    ParentIsNew(s, d, open, g, m, revision);
    JoinHangs(d, g, s.reusable, revision);
    var p := ParentFor(d, g, s.reusable, revision);
    var r := Join(d, g, s.reusable, revision);
    HungLeavesKept(s.leaves, d.nodes, d.kids, r.nodes, r.kids, p, g);
    ParentIsKnown(s, d, g, revision);
    HungParentsKept(s, d.nodes, d.kids, r.nodes, r.kids, p, g);
    JoinFamilies(s, d, g, revision);
  }

  lemma ParentIsKnown(s: Source, d: Draft, g: seq<Id>, revision: nat)
    requires Reliable(s) && s.base <= d.nextId && |g| >= 2 && Covers(d.nodes, g)
    ensures var p := ParentFor(d, g, s.reusable, revision);
            p.id < s.base ==> p.id in s.before && p.Content() == s.before[p.id].Content()
  {
    if g in s.reusable {
      assert Reusing(s, g);
    }
  }

  lemma JoinFamilies(s: Source, d: Draft, g: seq<Id>, revision: nat)
    requires Reliable(s) && s.base <= d.nextId && |g| >= 2 && Covers(d.nodes, g) && FamiliesKept(s, d.kids)
    requires forall id :: id in d.nodes ==> id < d.nextId
    ensures FamiliesKept(s, Join(d, g, s.reusable, revision).kids)
    ensures forall id :: id in Join(d, g, s.reusable, revision).nodes ==> id < Join(d, g, s.reusable, revision).nextId
  {
    if g in s.reusable {
      assert Reusing(s, g);
    }
  }

  /** A reused family adds no request; a new one adds the youngest. */
  lemma JoinRequested(base: Id, d: Draft, g: seq<Id>, reusable: Families, revision: nat)
    requires g != [] && Covers(d.nodes, g) && base <= d.nextId && Requested(base, d)
    requires forall id :: id in d.nodes ==> id < d.nextId
    requires g in reusable ==> reusable[g].id < base
    ensures Requested(base, Join(d, g, reusable, revision))
  {
    var p := ParentFor(d, g, reusable, revision).id;
    var r := Join(d, g, reusable, revision);
    forall i | 0 <= i < |r.requests| ensures Asks(base, r, i) {
      if i < |d.requests| { assert Asks(base, d, i); }
    }
    forall i, j | 0 <= i < j < |r.requests| ensures r.requests[i].parent < r.requests[j].parent {
      assert Asks(base, d, i);
    }
    forall q | q in r.kids && base <= q ensures AskedFor(r.requests, q) {
      if q == p {
        assert r.requests[|d.requests|].parent == q;
      } else {
        var i :| 0 <= i < |d.requests| && d.requests[i].parent == q;
        assert r.requests[i].parent == q;
      }
    }
  }

  lemma JoinSound(s: Source, d: Draft, pre: seq<Id>, g: seq<Id>, rest: seq<Id>, m: nat, revision: nat)
    requires Reliable(s) && Sound(s, d, pre + g + rest, m) && 2 <= |g| <= m
    ensures Covers(d.nodes, g)
    ensures var p := ParentFor(d, g, s.reusable, revision).id;
            var r := Join(d, g, s.reusable, revision);
            && Sound(s, r, pre + [p] + rest, m)
            && p !in d.nodes && p !in d.kids && r.kids == d.kids[p := g] && d.requests <= r.requests
            && Covers(r.nodes, rest)
  {
    GroupIsOpen(pre, g, rest);
    JoinRooted(s, d, pre, g, rest, m, revision);
    JoinSourced(s, d, pre + g + rest, g, m, revision);
    assert g in s.reusable ==> Reusing(s, g);
    JoinRequested(s.base, d, g, s.reusable, revision);
    LayerIsOpen(d, pre + g, rest);
  }

  // ---------------------------------------------------------------- a layer, and all layers

  ghost predicate Extends(kids: map<Id, seq<Id>>, more: map<Id, seq<Id>>) {
    forall q :: q in kids ==> q in more && more[q] == kids[q]
  }

  lemma ExtendsThrough(a: map<Id, seq<Id>>, b: map<Id, seq<Id>>, c: map<Id, seq<Id>>)
    requires Extends(a, b) && Extends(b, c)
    ensures Extends(a, c)
  {}

  lemma ExtendsSelf(kids: map<Id, seq<Id>>)
    ensures Extends(kids, kids)
  {}

  /** A join adds one node and one child list. */
  lemma JoinAdds(d: Draft, g: seq<Id>, reusable: Families, revision: nat)
    requires g != [] && Covers(d.nodes, g)
    requires var p := ParentFor(d, g, reusable, revision).id; p !in d.nodes && p !in d.kids
    ensures var r := Join(d, g, reusable, revision); |r.nodes| == |d.nodes| + 1 && Extends(d.kids, r.kids)
  {
    hide ParentFor;
    var r := Join(d, g, reusable, revision);
    assert r.nodes.Keys == d.nodes.Keys + {ParentFor(d, g, reusable, revision).id};
  }

  /** A layer of at most one node is already grouped; otherwise its first group gets a parent. */
  lemma GroupLayerCases(d: Draft, layer: seq<Id>, m: nat, reusable: Families, revision: nat)
    requires 2 <= m && Covers(d.nodes, layer)
    ensures |layer| <= 1 ==> GroupLayer(d, layer, m, reusable, revision) == Climbed(d, layer)
    ensures |layer| >= 2 ==>
              var g, rest := Head(layer, m), Rest(layer, m);
              && 2 <= |g| <= m && layer == g + rest && |rest| < |layer| && Covers(d.nodes, g) && Covers(d.nodes, rest)
              && var tail := GroupLayer(Join(d, g, reusable, revision), rest, m, reusable, revision);
              GroupLayer(d, layer, m, reusable, revision) ==
                Climbed(tail.draft, [ParentFor(d, g, reusable, revision).id] + tail.layer)
  {
    hide Join, ParentFor;
    if |layer| == 1 {
      var r := GroupLayer(d, layer, m, reusable, revision);
      assert Head(layer, m) == layer && Rest(layer, m) == [];
      assert layer + [] == layer;
    }
  }

  /** One layer keeps the forest, and trades at least one open node for each node it adds. */
  lemma {:induction false} GroupLayerSound(s: Source, d: Draft, pre: seq<Id>, layer: seq<Id>, m: nat, revision: nat)
    requires 2 <= m && Reliable(s) && Sound(s, d, pre + layer, m) && Covers(d.nodes, layer)
    ensures var r := GroupLayer(d, layer, m, s.reusable, revision);
            && Sound(s, r.draft, pre + r.layer, m)
            && |r.draft.nodes| + |r.layer| <= |d.nodes| + |layer|
            && Extends(d.kids, r.draft.kids)
            && d.requests <= r.draft.requests
    decreases |layer|
  {
    hide *;
    GroupLayerCases(d, layer, m, s.reusable, revision);
    if |layer| < 2 {
      ExtendsSelf(d.kids);
    } else {
      var g, rest := Head(layer, m), Rest(layer, m);
      assert pre + layer == pre + g + rest;
      JoinSound(s, d, pre, g, rest, m, revision);
      JoinAdds(d, g, s.reusable, revision);
      var p := ParentFor(d, g, s.reusable, revision).id;
      var e := Join(d, g, s.reusable, revision);
      GroupLayerSound(s, e, pre + [p], rest, m, revision);
      var tail := GroupLayer(e, rest, m, s.reusable, revision);
      ExtendsThrough(d.kids, e.kids, tail.draft.kids);
      assert pre + ([p] + tail.layer) == (pre + [p]) + tail.layer;
    }
  }

  lemma LayerIsOpen(d: Draft, pre: seq<Id>, layer: seq<Id>)
    requires Detached(d.nodes, pre + layer)
    ensures Covers(d.nodes, layer)
  {
    forall id | id in layer ensures id in d.nodes {
      var j :| 0 <= j < |layer| && layer[j] == id;
      assert (pre + layer)[|pre| + j] == id;
    }
  }

  lemma {:induction false} ClimbSound(s: Source, d: Draft, layer: seq<Id>, m: nat, revision: nat)
    requires 2 <= m && Reliable(s) && Sound(s, d, layer, m) && Covers(d.nodes, layer)
    ensures var r := Climb(d, layer, m, s.reusable, revision);
            && Sound(s, r.draft, r.layer, m)
            && |r.draft.nodes| + |r.layer| <= |d.nodes| + |layer|
            && Extends(d.kids, r.draft.kids)
            && d.requests <= r.draft.requests
    decreases |layer|
  {
    hide Sound, Reliable, GroupLayer, Covers;
    if |layer| > m {
      WidthShrinks(|layer|, m);
      assert [] + layer == layer;
      GroupLayerSound(s, d, [], layer, m, revision);
      var up := GroupLayer(d, layer, m, s.reusable, revision);
      assert [] + up.layer == up.layer;
      ClimbSound(s, up.draft, up.layer, m, revision);
    }
  }

  // ---------------------------------------------------------------- the tree a reader sees

  datatype Tree = Leaf(id: Id) | Branch(id: Id, subtrees: seq<Tree>)

  /** `t` is what reading child lists top-down yields. */
  ghost predicate Reads(kids: map<Id, seq<Id>>, leaves: set<Id>, t: Tree) {
    match t
    case Leaf(id) => id in leaves
    case Branch(id, ts) =>
      id in kids && |ts| == |kids[id]| &&
      forall j :: 0 <= j < |ts| ==> ts[j].id == kids[id][j] && Reads(kids, leaves, ts[j])
  }

  ghost predicate ReadsAll(kids: map<Id, seq<Id>>, leaves: set<Id>, ids: seq<Id>, ts: seq<Tree>) {
    |ts| == |ids| && forall j :: 0 <= j < |ts| ==> ts[j].id == ids[j] && Reads(kids, leaves, ts[j])
  }

  /** Leaves from left to right. */
  function Frontier(t: Tree): seq<Id> {
    match t
    case Leaf(id) => [id]
    case Branch(_, ts) => Frontiers(ts)
  }

  function Frontiers(ts: seq<Tree>): seq<Id> {
    if ts == [] then [] else Frontier(ts[0]) + Frontiers(ts[1..])
  }

  lemma {:induction false} FrontiersConcat(a: seq<Tree>, b: seq<Tree>)
    ensures Frontiers(a + b) == Frontiers(a) + Frontiers(b)
  {
    if a == [] {
      assert a + b == b;
    } else {
      FrontiersConcat(a[1..], b);
      FrontiersFirst(a);
      FrontiersFirst(a + b);
      hide *;
      assert (a + b)[1..] == a[1..] + b && (a + b)[0] == a[0];
      JoinAssociates(Frontier(a[0]), Frontiers(a[1..]), Frontiers(b));
    }
  }

  lemma FrontiersFirst(ts: seq<Tree>)
    requires ts != []
    ensures Frontiers(ts) == Frontier(ts[0]) + Frontiers(ts[1..])
  {
    hide Frontier;
  }

  lemma {:induction false} ReadsMore(kids: map<Id, seq<Id>>, more: map<Id, seq<Id>>, leaves: set<Id>, t: Tree)
    requires Extends(kids, more) && Reads(kids, leaves, t)
    ensures Reads(more, leaves, t)
  {
    if t.Branch? {
      forall j | 0 <= j < |t.subtrees| ensures Reads(more, leaves, t.subtrees[j]) {
        ReadsMore(kids, more, leaves, t.subtrees[j]);
      }
    }
  }

  /** Grouping a layer puts nothing between its leaves and loses none. */
  lemma {:induction false} GroupLayerReads(s: Source, d: Draft, pre: seq<Id>, layer: seq<Id>, m: nat, revision: nat,
                                           ts: seq<Tree>)
    returns (up: seq<Tree>)
    requires 2 <= m && Reliable(s) && Sound(s, d, pre + layer, m) && Covers(d.nodes, layer)
    requires ReadsAll(d.kids, s.leaves.Keys, layer, ts)
    ensures var r := GroupLayer(d, layer, m, s.reusable, revision);
            ReadsAll(r.draft.kids, s.leaves.Keys, r.layer, up)
    ensures Frontiers(up) == Frontiers(ts)
    decreases |layer|
  {
    hide Sound, Reliable, Join, ParentFor, GroupLayer, Head, Rest, Frontiers, Reads, ReadsAll, Covers;
    GroupLayerCases(d, layer, m, s.reusable, revision);
    if |layer| < 2 {
      up := ts;
    } else {
      var g, rest := Head(layer, m), Rest(layer, m);
      assert pre + layer == pre + g + rest;
      JoinSound(s, d, pre, g, rest, m, revision);
      var p := ParentFor(d, g, s.reusable, revision).id;
      var e := Join(d, g, s.reusable, revision);
      ReadsAllMore(d.kids, e.kids, s.leaves.Keys, layer, ts);
      var tg, tr := ReadsAllSplit(e.kids, s.leaves.Keys, p, g, rest, ts);
      var upRest := GroupLayerReads(s, e, pre + [p], rest, m, revision, tr);
      GroupLayerSound(s, e, pre + [p], rest, m, revision);
      var tail := GroupLayer(e, rest, m, s.reusable, revision);
      ReadsMore(e.kids, tail.draft.kids, s.leaves.Keys, Branch(p, tg));
      ReadsAllCons(tail.draft.kids, s.leaves.Keys, Branch(p, tg), tail.layer, upRest);
      BranchFrontier(p, ts, tg, tr, upRest);
      up := [Branch(p, tg)] + upRest;
    }
  }

  lemma ReadsAllMore(kids: map<Id, seq<Id>>, more: map<Id, seq<Id>>, leaves: set<Id>, ids: seq<Id>, ts: seq<Tree>)
    requires Extends(kids, more) && ReadsAll(kids, leaves, ids, ts)
    ensures ReadsAll(more, leaves, ids, ts)
  {
    forall j | 0 <= j < |ts| ensures Reads(more, leaves, ts[j]) {
      ReadsMore(kids, more, leaves, ts[j]);
    }
  }

  lemma ReadsAllSplit(kids: map<Id, seq<Id>>, leaves: set<Id>, p: Id, g: seq<Id>, rest: seq<Id>, ts: seq<Tree>)
    returns (tg: seq<Tree>, tr: seq<Tree>)
    requires ReadsAll(kids, leaves, g + rest, ts) && p in kids && kids[p] == g
    ensures ts == tg + tr && ReadsAll(kids, leaves, rest, tr) && Reads(kids, leaves, Branch(p, tg))
  {
    tg, tr := ts[..|g|], ts[|g|..];
  }

  lemma ReadsAllCons(kids: map<Id, seq<Id>>, leaves: set<Id>, t: Tree, ids: seq<Id>, ts: seq<Tree>)
    requires Reads(kids, leaves, t) && ReadsAll(kids, leaves, ids, ts)
    ensures ReadsAll(kids, leaves, [t.id] + ids, [t] + ts)
  {}

  lemma BranchFrontier(p: Id, ts: seq<Tree>, tg: seq<Tree>, tr: seq<Tree>, up: seq<Tree>)
    requires ts == tg + tr && Frontiers(up) == Frontiers(tr)
    ensures Frontiers([Branch(p, tg)] + up) == Frontiers(ts)
  {
    FrontiersConcat(tg, tr);
    assert ([Branch(p, tg)] + up)[1..] == up;
  }

  lemma {:induction false} ClimbReads(s: Source, d: Draft, layer: seq<Id>, m: nat, revision: nat, ts: seq<Tree>)
    returns (roots: seq<Tree>)
    requires 2 <= m && Reliable(s) && Sound(s, d, layer, m) && Covers(d.nodes, layer)
    requires ReadsAll(d.kids, s.leaves.Keys, layer, ts)
    ensures var r := Climb(d, layer, m, s.reusable, revision);
            ReadsAll(r.draft.kids, s.leaves.Keys, r.layer, roots)
    ensures Frontiers(roots) == Frontiers(ts)
    decreases |layer|
  {
    hide Sound, Reliable;
    if |layer| <= m {
      roots := ts;
    } else {
      WidthShrinks(|layer|, m);
      assert [] + layer == layer;
      GroupLayerSound(s, d, [], layer, m, revision);
      var up := GroupLayer(d, layer, m, s.reusable, revision);
      assert [] + up.layer == up.layer;
      var tu := GroupLayerReads(s, d, [], layer, m, revision, ts);
      roots := ClimbReads(s, up.draft, up.layer, m, revision, tu);
    }
  }

  // ---------------------------------------------------------------- the finished plan

  /** A published table: an ordered forest with at most `m` numbered roots and child lists of two to `m`. */
  ghost predicate Published(nodes: map<Id, Node>, kids: map<Id, seq<Id>>, roots: seq<Id>, leaves: set<Id>, m: nat) {
    Rooted(nodes, kids, roots, leaves) && Fanout(kids, m) && |roots| <= m && Numbered(nodes, roots)
  }

  ghost predicate Numbered(nodes: map<Id, Node>, roots: seq<Id>) {
    forall i :: 0 <= i < |roots| ==> roots[i] in nodes && nodes[roots[i]].order == i
  }

  /** What the planner may be called with. */
  ghost predicate Input(s: Source, leaves: seq<Node>, nextId: Id) {
    NoDup(Ids(leaves)) && s.leaves == Index(leaves) && s.base == nextId && Reliable(s)
  }

  lemma {:induction false} CrownFacts(nodes: map<Id, Node>, layer: seq<Id>, from: nat)
    requires from <= |layer| && Covers(nodes, layer) && NoDup(layer)
    ensures forall i :: from <= i < |layer| ==>
              Crown(nodes, layer, from)[layer[i]] == nodes[layer[i]].(parent := None, order := i)
    ensures forall id :: id in nodes && id !in layer[from..] ==> Crown(nodes, layer, from)[id] == nodes[id]
    decreases |layer| - from
  {
    if from < |layer| {
      CrownFacts(nodes[layer[from] := nodes[layer[from]].(parent := None, order := from)], layer, from + 1);
      assert layer[from..] == [layer[from]] + layer[from+1..];
    }
  }

  /** Numbering the roots disturbs nothing below them. */
  lemma CrownPublishes(s: Source, d: Draft, roots: seq<Id>, m: nat)
    requires Sound(s, d, roots, m) && |roots| <= m && Covers(d.nodes, roots)
    ensures var nodes := Crown(d.nodes, roots, 0);
            Published(nodes, d.kids, roots, s.leaves.Keys, m) && Sourced(s, d.(nodes := nodes))
  {
    var nodes := Crown(d.nodes, roots, 0);
    CrownContent(d.nodes, roots);
    CrownFacts(d.nodes, roots, 0);
    assert roots[0..] == roots;
    hide Sourced, Requested;
    CrownRooted(d.nodes, nodes, d.kids, roots, s.leaves.Keys);
    CrownSourced(s, d, nodes);
  }

  lemma CrownSourced(s: Source, d: Draft, crowned: map<Id, Node>)
    requires Sourced(s, d) && crowned.Keys == d.nodes.Keys
    requires forall id :: id in d.nodes ==> crowned[id].Content() == d.nodes[id].Content()
    ensures Sourced(s, d.(nodes := crowned))
  {
    hide FamiliesKept;
  }

  lemma CrownContent(nodes: map<Id, Node>, roots: seq<Id>)
    requires Covers(nodes, roots) && NoDup(roots)
    ensures forall id :: id in nodes ==> Crown(nodes, roots, 0)[id].Content() == nodes[id].Content()
  {
    CrownFacts(nodes, roots, 0);
    assert roots[0..] == roots;
    forall id | id in nodes ensures Crown(nodes, roots, 0)[id].Content() == nodes[id].Content() {
      if id in roots {
        var i :| 0 <= i < |roots| && roots[i] == id;
        assert Crown(nodes, roots, 0)[roots[i]] == nodes[roots[i]].(parent := None, order := i);
      }
    }
  }

  lemma CrownRooted(nodes: map<Id, Node>, crowned: map<Id, Node>, kids: map<Id, seq<Id>>, roots: seq<Id>,
                    leaves: set<Id>)
    requires Rooted(nodes, kids, roots, leaves) && crowned.Keys == nodes.Keys
    requires forall i :: 0 <= i < |roots| ==> crowned[roots[i]] == nodes[roots[i]].(parent := None, order := i)
    requires forall id :: id in nodes && id !in roots ==> crowned[id] == nodes[id]
    ensures Rooted(crowned, kids, roots, leaves) && Numbered(crowned, roots)
  {
    assert Named(crowned) by {
      forall id | id in crowned ensures crowned[id].id == id {
        if id in roots { var i :| 0 <= i < |roots| && roots[i] == id; }
      }
    }
    assert Detached(crowned, roots) by {
      forall id | id in roots ensures id in crowned && crowned[id].parent == None {
        var i :| 0 <= i < |roots| && roots[i] == id;
      }
    }
    forall q | q in kids ensures Keeps(crowned, kids, q) {
      CrownKeeps(nodes, crowned, kids, roots, q);
    }
  }

  lemma CrownKeeps(nodes: map<Id, Node>, crowned: map<Id, Node>, kids: map<Id, seq<Id>>, roots: seq<Id>, q: Id)
    requires q in kids && Keeps(nodes, kids, q) && Detached(nodes, roots) && crowned.Keys == nodes.Keys
    requires forall i :: 0 <= i < |roots| ==> crowned[roots[i]] == nodes[roots[i]].(parent := None, order := i)
    requires forall id :: id in nodes && id !in roots ==> crowned[id] == nodes[id]
    ensures Keeps(crowned, kids, q)
  {
    if q in roots { var i :| 0 <= i < |roots| && roots[i] == q; }
    var h := kids[q];
    forall j | 0 <= j < |h| ensures h[j] !in roots {
      assert nodes[h[j]].parent == Some(q);
    }
  }

  lemma {:induction false} IndexFacts(leaves: seq<Node>)
    requires NoDup(Ids(leaves))
    ensures forall n :: n in leaves ==> n.id in Index(leaves) && Index(leaves)[n.id] == n.(parent := None)
    ensures |Index(leaves)| == |leaves|
  {
    if leaves != [] {
      var init, n := leaves[..|leaves|-1], leaves[|leaves|-1];
      assert leaves == init + [n];
      assert Ids(init) == Ids(leaves)[..|leaves|-1];
      IndexFacts(init);
      assert n.id !in Index(init) by {
        forall i | 0 <= i < |init| ensures init[i].id != n.id {
          assert Ids(leaves)[i] == init[i].id && Ids(leaves)[|leaves|-1] == n.id;
        }
      }
      assert Index(leaves) == Index(init)[n.id := n.(parent := None)];
    }
  }

  lemma LeafLayerNoDup(leaves: seq<Node>)
    requires NoDup(Ids(leaves))
    ensures NoDup(LeafLayer(leaves))
  {
    LeafLayerCovered(leaves);
    IndexFacts(leaves);
    CardinalityNoDup(LeafLayer(leaves));
    assert |Index(leaves).Keys| == |leaves|;
  }

  /** The draft the climb starts from: every leaf open, nothing above. */
  lemma StartSound(s: Source, leaves: seq<Node>, m: nat, nextId: Id)
    requires Input(s, leaves, nextId)
    ensures Sound(s, Draft(Index(leaves), map[], [], nextId), LeafLayer(leaves), m)
    ensures Covers(Index(leaves), LeafLayer(leaves))
  {
    LeafLayerCovered(leaves);
    LeafLayerNoDup(leaves);
    forall id | id in Index(leaves) ensures id in LeafLayer(leaves) && Index(leaves)[id].id == id {
      assert id in Elements(LeafLayer(leaves));
    }
  }

  /**
   * Planning any leaves over any published families yields an ordered forest: at most `m` roots, child
   * lists of two to `m`, ranges that are hulls, and fewer parents than leaves (by at least the roots).
   */
  lemma PlanIsForest(s: Source, leaves: seq<Node>, m: nat, revision: nat, nextId: Id)
    requires 2 <= m && Input(s, leaves, nextId)
    ensures var r := Plan(leaves, s.reusable, m, revision, nextId);
            && Published(r.draft.nodes, r.draft.kids, r.layer, s.leaves.Keys, m)
            && |r.draft.kids| + |r.layer| <= |leaves|
  {
    var d := Draft(Index(leaves), map[], [], nextId);
    StartSound(s, leaves, m, nextId);
    ClimbSound(s, d, LeafLayer(leaves), m, revision);
    var top := Climb(d, LeafLayer(leaves), m, s.reusable, revision);
    CrownPublishes(s, top.draft, top.layer, m);
    LeafLayerCovered(leaves);
    IndexFacts(leaves);
    NodesAreKidsAndLeaves(top.draft.nodes, top.draft.kids, s.leaves.Keys);
  }

  lemma NodesAreKidsAndLeaves(nodes: map<Id, Node>, kids: map<Id, seq<Id>>, leaves: set<Id>)
    requires nodes.Keys == kids.Keys + leaves && kids.Keys !! leaves
    ensures |nodes| == |kids| + |leaves|
  {
    assert |nodes.Keys| == |kids.Keys| + |leaves|;
  }

  /** Nothing published is altered: leaves and reused parents keep title, summary, range and revision. */
  lemma PlanKeepsContent(s: Source, leaves: seq<Node>, m: nat, revision: nat, nextId: Id)
    requires 2 <= m && Input(s, leaves, nextId)
    ensures var r := Plan(leaves, s.reusable, m, revision, nextId);
            LeavesKept(s.leaves, r.draft.nodes) && ParentsKept(s, r.draft.nodes) && FamiliesKept(s, r.draft.kids)
  {
    var d := Draft(Index(leaves), map[], [], nextId);
    StartSound(s, leaves, m, nextId);
    ClimbSound(s, d, LeafLayer(leaves), m, revision);
    var top := Climb(d, LeafLayer(leaves), m, s.reusable, revision);
    CrownPublishes(s, top.draft, top.layer, m);
  }

  /** Exactly the new parents are to be summarised, every one after all of its new children. */
  lemma PlanRequestsChildrenFirst(s: Source, leaves: seq<Node>, m: nat, revision: nat, nextId: Id)
    requires 2 <= m && Input(s, leaves, nextId)
    ensures var r := Plan(leaves, s.reusable, m, revision, nextId);
            && Requested(nextId, r.draft)
            && (forall i, j :: 0 <= i <= j < |r.draft.requests| ==>
                  r.draft.requests[j].parent !in r.draft.requests[i].children)
  {
    var d := Draft(Index(leaves), map[], [], nextId);
    StartSound(s, leaves, m, nextId);
    ClimbSound(s, d, LeafLayer(leaves), m, revision);
    RequestsChildrenFirst(nextId, Climb(d, LeafLayer(leaves), m, s.reusable, revision).draft,
                          Plan(leaves, s.reusable, m, revision, nextId).draft);
  }

  lemma RequestsChildrenFirst(base: Id, d: Draft, e: Draft)
    requires Requested(base, d) && e.(nodes := d.nodes) == d
    ensures Requested(base, e)
    ensures forall i, j :: 0 <= i <= j < |e.requests| ==> e.requests[j].parent !in e.requests[i].children
  {
    forall i | 0 <= i < |e.requests| ensures Asks(base, e, i) {
      assert Asks(base, d, i);
    }
    forall i, j | 0 <= i <= j < |e.requests| ensures e.requests[j].parent !in e.requests[i].children {
      assert Asks(base, e, i);
    }
  }

  /** Read top-down, the plan's leaves are the given leaves in chronological order. */
  lemma PlanKeepsLeafOrder(s: Source, leaves: seq<Node>, m: nat, revision: nat, nextId: Id) returns (roots: seq<Tree>)
    requires 2 <= m && Input(s, leaves, nextId)
    ensures var r := Plan(leaves, s.reusable, m, revision, nextId);
            ReadsAll(r.draft.kids, s.leaves.Keys, r.layer, roots)
    ensures Frontiers(roots) == LeafLayer(leaves)
  {
    var d := Draft(Index(leaves), map[], [], nextId);
    var layer := LeafLayer(leaves);
    StartSound(s, leaves, m, nextId);
    LeafLayerCovered(leaves);
    var ts := seq(|layer|, i requires 0 <= i < |layer| => Leaf(layer[i]));
    forall j | 0 <= j < |layer| ensures Reads(map[], s.leaves.Keys, ts[j]) {
      assert layer[j] in layer;
    }
    LeavesFrontier(layer, ts);
    roots := ClimbReads(s, d, layer, m, revision, ts);
  }

  lemma {:induction false} LeavesFrontier(ids: seq<Id>, ts: seq<Tree>)
    requires |ts| == |ids| && forall j :: 0 <= j < |ts| ==> ts[j] == Leaf(ids[j])
    ensures Frontiers(ts) == ids
  {
    if ids != [] {
      LeavesFrontier(ids[1..], ts[1..]);
      assert ids == [ids[0]] + ids[1..];
    }
  }
}
