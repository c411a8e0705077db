/** An index call as the source runs it, from captured rows to the proposal it would publish. */
module IndexCalls {
  import opened Wrappers
  import opened Sequences
  import opened Hierarchy
  import opened HierarchyForest
  import opened HierarchyReuse
  import opened HierarchyReplan
  import opened HierarchyPlanner
  import opened Indexing
  import opened IndexRuns

  datatype Status = Complete | Partial

  /** Every node the plan holds is titled already, a new leaf, or a requested parent. */
  lemma PlanTitlesDue(s: Source, leaves: seq<Node>, newer: seq<Node>, m: nat, revision: nat, nextId: Id)
    requires 2 <= m && Input(s, leaves, nextId) && AllTitled(s.before)
    requires forall n :: n in leaves ==> n in newer || (n.id in s.before && s.before[n.id] == n)
    ensures var d := Plan(leaves, s.reusable, m, revision, nextId).draft; TitlesDue(d.nodes, newer, d.requests)
  {
    PlanIsForest(s, leaves, m, revision, nextId);
    PlanKeepsContent(s, leaves, m, revision, nextId);
    PlanRequestsChildrenFirst(s, leaves, m, revision, nextId);
    var r := Plan(leaves, s.reusable, m, revision, nextId);
    var d := r.draft;
    IndexFacts(leaves);
    PublishedParts(d.nodes, d.kids, r.layer, s.leaves.Keys, m);
    assert s.leaves == Index(leaves) && s.base == nextId;
    assert d.nodes.Keys == d.kids.Keys + s.leaves.Keys;
    hide Plan, Rooted, Published, Reliable, Input, LeavesKept, ParentsKept, FamiliesKept, Asks, Index, Fanout, Numbered;
    forall id | id in d.nodes ensures DueTitle(d.nodes, newer, d.requests, id) {
      if id in s.leaves {
        LeafDue(s, leaves, newer, d, id);
      } else if id < s.base {
        ParentDue(s, d, id);
      } else {
        assert AskedFor(d.requests, id);
      }
    }
  }

  lemma LeafDue(s: Source, leaves: seq<Node>, newer: seq<Node>, d: Draft, id: Id)
    requires NoDup(Ids(leaves)) && s.leaves == Index(leaves) && LeavesKept(s.leaves, d.nodes) && AllTitled(s.before)
    requires forall n :: n in leaves ==> n in newer || (n.id in s.before && s.before[n.id] == n)
    requires id in s.leaves
    ensures DueTitle(d.nodes, newer, d.requests, id)
  {
    IndexFacts(leaves);
    var n :| n in leaves && n.id == id;
    if n !in newer {
      assert Done(s.before, id);
      assert d.nodes[id].Content() == s.leaves[id].Content() == n.Content();
      SameTitle(d.nodes[id], n);
    }
  }

  lemma ParentDue(s: Source, d: Draft, id: Id)
    requires ParentsKept(s, d.nodes) && AllTitled(s.before) && id in d.nodes && id !in s.leaves && id < s.base
    ensures Done(d.nodes, id)
  {
    assert Done(s.before, id);
    SameTitle(d.nodes[id], s.before[id]);
  }

  lemma SameTitle(a: Node, b: Node)
    requires a.Content() == b.Content()
    ensures a.title == b.title && a.summary == b.summary
  {
    assert a.Content().title == b.Content().title && a.Content().summary == b.Content().summary;
  }

  lemma PlanChildrenFirst(s: Source, leaves: seq<Node>, m: nat, revision: nat, nextId: Id)
    requires 2 <= m && Input(s, leaves, nextId)
    ensures var d := Plan(leaves, s.reusable, m, revision, nextId).draft; ChildrenFirst(d.nodes, d.requests)
  {
    PlanIsForest(s, leaves, m, revision, nextId);
    PlanRequestsChildrenFirst(s, leaves, m, revision, nextId);
    var r := Plan(leaves, s.reusable, m, revision, nextId);
    var d := r.draft;
    PublishedParts(d.nodes, d.kids, r.layer, s.leaves.Keys, m);
    assert AllKeep(d.nodes, d.kids);
    hide Plan, Rooted, Published, Reliable, Input, Fanout, Numbered;
    forall i | 0 <= i < |d.requests|
      ensures d.requests[i].parent in d.nodes && Covers(d.nodes, d.requests[i].children)
    {
      assert Asks(nextId, d, i);
      assert Keeps(d.nodes, d.kids, d.requests[i].parent);
    }
  }

  /** The model's answers are in the plan's table: for each committed chunk, and for each new parent. */
  ghost predicate Answered(b: Backlog, cfg: Settings, families: Families, count: nat, titled: map<Id, Node>,
                           readRows: seq<Row> -> Answer, readChildren: seq<(Id, string)> -> Answer)
    requires 2 <= cfg.m && count <= |NewLeaves(b, cfg)| <= |Chunks(b.rows, cfg.target)|
  {
    var d := PlanOf(b, cfg, families, count).draft;
    && LeavesAnswered(d.nodes, NewLeaves(b, cfg)[..count], Chunks(b.rows, cfg.target)[..count], readRows, titled)
    && ParentsAnswered(d.nodes, d.requests, readChildren, titled)
  }

  /**
   * The whole local part of index(): chunk, draw leaves, choose how many fit, plan, title.  The result
   * is one committing call in the sense of `Commits`, with the model's own answers and within the
   * attempt limit, or no change with nothing asked of the model.
   */
  method Propose(b: Backlog, previous: seq<Node>, cfg: Settings,
                 readRows: seq<Row> -> Answer, readChildren: seq<(Id, string)> -> Answer)
    returns (b2: Backlog, count: nat, asked: nat, status: Status, ghost families: Families, ghost titled: map<Id, Node>)
    requires Ready(b, cfg) && AllTitled(b.forest.nodes) && Lists(previous, b.forest.nodes)
    ensures 2 <= cfg.m && Commits(b, cfg, families, count, titled, b2)
    ensures AllTitled(b2.forest.nodes)
    ensures count <= |NewLeaves(b, cfg)| <= |Chunks(b.rows, cfg.target)|
    ensures count > 0 ==> b2.forest.nodes == titled && Answered(b, cfg, families, count, titled, readRows, readChildren)
    ensures count > 0 ==> (status == Complete <==> b2.rows == [])
    ensures count > 0 ==> asked == count + |PlanOf(b, cfg, families, count).draft.requests| <= cfg.limit
    ensures count == 0 ==> status == Partial && asked == 0
  {
    var chunks := ChunkMessages(b.rows, cfg.target);
    var groups := if |chunks| <= cfg.limit then chunks else chunks[..cfg.limit];
    assert groups == Considered(b, cfg);
    var newer := DrawLeaves(b, cfg, groups);
    NewLeafFacts(b, cfg);
    ProposeInput(b, previous, cfg);
    hide *;
    var plan;
    count, plan, families :=
      ChooseCount(b.forest.leaves, newer, previous, cfg.m, b.revision + 1, PlanId(b, cfg), cfg.limit);
    ProposeFamilies(b, previous, cfg, families);
    FitParts(b, cfg, families, count);
    if count == 0 {
      titled := map[];
      NothingCommits(b, cfg, families, titled);
      return b, 0, 0, Partial, families, titled;
    }
    ProposeDue(b, cfg, families, count);
    ConsideredPrefix(b, cfg, groups, chunks, count);
    var resolved :=
      TitleNodes(plan.draft.nodes, newer[..count], groups[..count], plan.draft.requests, readRows, readChildren);
    titled := resolved;
    var leaves := b.forest.leaves + newer[..count];
    LeavesAre(b, cfg, count);
    ProposeSpans(b, cfg, families, count, titled);
    b2 := Backlog(PublishPlan(plan, resolved, leaves), Flatten(chunks[count..]), plan.draft.nextId, b.revision + 1);
    status := if count == |chunks| then Complete else Partial;
    asked := count + |plan.draft.requests|;
    CommitWhole(b, cfg, families, count, titled, b2);
    AnsweredWhole(b, cfg, families, count, titled, readRows, readChildren);
    ProposeStatus(b, cfg, count);
  }

  lemma FitParts(b: Backlog, cfg: Settings, families: Families, count: nat)
    requires 2 <= cfg.m
    requires LargestFit(b.forest.leaves, NewLeaves(b, cfg), count, families, cfg.m, b.revision + 1, PlanId(b, cfg),
                        cfg.limit)
    ensures count <= |NewLeaves(b, cfg)|
    ensures PlanOf(b, cfg, families, count) ==
            Plan(b.forest.leaves + NewLeaves(b, cfg)[..count], families, cfg.m, b.revision + 1, PlanId(b, cfg))
    ensures count > 0 ==> count + |PlanOf(b, cfg, families, count).draft.requests| <= cfg.limit
  {
    hide NewLeaves, PlanId, Plan;
  }

  lemma ConsideredPrefix(b: Backlog, cfg: Settings, groups: seq<seq<Row>>, chunks: seq<seq<Row>>, count: nat)
    requires groups == Considered(b, cfg) && chunks == Chunks(b.rows, cfg.target) && count <= |NewLeaves(b, cfg)|
    ensures |NewLeaves(b, cfg)| == |groups| <= |chunks| && groups[..count] == chunks[..count]
  {
    NewLeafFacts(b, cfg);
    ConsideredNonEmpty(b, cfg);
    hide Chunks, NewLeaves;
  }

  lemma AnsweredWhole(b: Backlog, cfg: Settings, families: Families, count: nat, titled: map<Id, Node>,
                      readRows: seq<Row> -> Answer, readChildren: seq<(Id, string)> -> Answer)
    requires 2 <= cfg.m && count <= |NewLeaves(b, cfg)| <= |Chunks(b.rows, cfg.target)|
    requires var d := PlanOf(b, cfg, families, count).draft;
             && LeavesAnswered(d.nodes, NewLeaves(b, cfg)[..count], Chunks(b.rows, cfg.target)[..count], readRows,
                               titled)
             && ParentsAnswered(d.nodes, d.requests, readChildren, titled)
    ensures Answered(b, cfg, families, count, titled, readRows, readChildren)
  {
    hide LeavesAnswered, ParentsAnswered, NewLeaves, Chunks, PlanOf;
  }

  /** The loop that draws one leaf per considered chunk. */
  method DrawLeaves(b: Backlog, cfg: Settings, groups: seq<seq<Row>>) returns (newer: seq<Node>)
    requires groups == Considered(b, cfg)
    ensures newer == NewLeaves(b, cfg)
  {
    ConsideredNonEmpty(b, cfg);
    newer := [];
    for i := 0 to |groups|
      invariant newer == LeavesFor(groups[..i], b.nextId, b.revision + 1)
    {
      var group := groups[i];
      assert groups[..i+1][..i] == groups[..i];
      newer := newer
        + [Node(b.nextId + i, None, i, group[0].seqNo, group[|group|-1].seqNo, None, None, b.revision + 1)];
    }
    assert groups[..|groups|] == groups;
  }

  lemma ProposeInput(b: Backlog, previous: seq<Node>, cfg: Settings)
    requires Ready(b, cfg) && Lists(previous, b.forest.nodes)
    ensures 2 <= cfg.m && NoDup(Ids(previous)) && NoDup(Ids(b.forest.leaves + NewLeaves(b, cfg)))
  {
    hide NewLeaves, NoDup;
    LeavesAreLater(b, cfg, |NewLeaves(b, cfg)|);
    assert NewLeaves(b, cfg)[..|NewLeaves(b, cfg)|] == NewLeaves(b, cfg);
  }

  lemma ProposeFamilies(b: Backlog, previous: seq<Node>, cfg: Settings, families: Families)
    requires Ready(b, cfg) && Lists(previous, b.forest.nodes) && IsFamilies(previous, families)
    ensures Mirrors(families, b.forest.nodes, b.forest.kids)
  {
    hide *;
    ReadyParts(b, cfg);
    SettledParts(b.forest, cfg.m);
    FamiliesMirror(previous, families, b.forest.nodes, b.forest.kids, b.forest.roots, Index(b.forest.leaves).Keys);
  }

  lemma ProposeDue(b: Backlog, cfg: Settings, families: Families, count: nat)
    requires Ready(b, cfg) && AllTitled(b.forest.nodes) && Mirrors(families, b.forest.nodes, b.forest.kids)
    requires 2 <= cfg.m && count <= |NewLeaves(b, cfg)|
    ensures var newer := NewLeaves(b, cfg)[..count];
            var d := Plan(b.forest.leaves + newer, families, cfg.m, b.revision + 1, PlanId(b, cfg)).draft;
            && TitlesDue(d.nodes, newer, d.requests) && ChildrenFirst(d.nodes, d.requests)
               && OnceEach(newer, d.requests)
            && forall i :: 0 <= i < |newer| ==> newer[i].id in d.nodes
  {
    var newer := NewLeaves(b, cfg)[..count];
    var leaves := b.forest.leaves + newer;
    var s := SourceOf(b.forest, newer, families, PlanId(b, cfg));
    ReadyFiled(b, cfg);
    FiledOrNew(b.forest.nodes, b.forest.leaves, newer);
    assert s.reusable == families && s.before == b.forest.nodes && s.leaves == Index(leaves);
    hide *;
    CallInput(b, cfg, families, count);
    PlanTitlesDue(s, leaves, newer, cfg.m, b.revision + 1, PlanId(b, cfg));
    PlanChildrenFirst(s, leaves, cfg.m, b.revision + 1, PlanId(b, cfg));
    PlanKeepsContent(s, leaves, cfg.m, b.revision + 1, PlanId(b, cfg));
    PlanRequestsChildrenFirst(s, leaves, cfg.m, b.revision + 1, PlanId(b, cfg));
    NewerIdsBelow(b, cfg, count);
    EachOnce(newer, Plan(leaves, families, cfg.m, b.revision + 1, PlanId(b, cfg)).draft, b.nextId, PlanId(b, cfg));
    NewerKept(leaves, newer, Plan(leaves, families, cfg.m, b.revision + 1, PlanId(b, cfg)).draft.nodes);
  }

  lemma NewerIdsBelow(b: Backlog, cfg: Settings, count: nat)
    requires count <= |NewLeaves(b, cfg)|
    ensures b.nextId + count <= PlanId(b, cfg)
    ensures forall i :: 0 <= i < count ==> NewLeaves(b, cfg)[..count][i].id == b.nextId + i
  {
    NewLeafFacts(b, cfg);
  }

  lemma EachOnce(newer: seq<Node>, d: Draft, from: Id, base: Id)
    requires Requested(base, d) && from + |newer| <= base
    requires forall i :: 0 <= i < |newer| ==> newer[i].id == from + i
    ensures OnceEach(newer, d.requests)
  {
    RequestsAreNew(base, d);
  }

  lemma ReadyFiled(b: Backlog, cfg: Settings)
    requires Ready(b, cfg)
    ensures LeavesFiled(b.forest.nodes, b.forest.leaves)
  {}

  lemma FiledOrNew(nodes: map<Id, Node>, older: seq<Node>, newer: seq<Node>)
    requires LeavesFiled(nodes, older)
    ensures forall n :: n in older + newer ==> n in newer || (n.id in nodes && nodes[n.id] == n)
  {}

  lemma NewerKept(leaves: seq<Node>, newer: seq<Node>, nodes: map<Id, Node>)
    requires LeavesKept(Index(leaves), nodes) && (forall n :: n in newer ==> n in leaves)
    ensures forall i :: 0 <= i < |newer| ==> newer[i].id in nodes
  {
    forall i | 0 <= i < |newer| ensures newer[i].id in nodes {
      assert newer[i] in newer;
      assert newer[i].id in Index(leaves);
    }
  }

  lemma ProposeSpans(b: Backlog, cfg: Settings, families: Families, count: nat, titled: map<Id, Node>)
    requires Ready(b, cfg) && Mirrors(families, b.forest.nodes, b.forest.kids) && count <= |NewLeaves(b, cfg)|
    requires var plan :=
             Plan(b.forest.leaves + NewLeaves(b, cfg)[..count], families, cfg.m, b.revision + 1, PlanId(b, cfg));
             Retitled(plan.draft.nodes, titled)
    ensures forall n :: n in b.forest.leaves + NewLeaves(b, cfg)[..count] ==> KeepsSpan(titled, n)
  {
    var s := CallSource(b, cfg, families, count);
    assert CommittedLeaves(b, cfg, count) == b.forest.leaves + NewLeaves(b, cfg)[..count];
    hide *;
    PlanSettles(s, CommittedLeaves(b, cfg, count), cfg.m, b.revision + 1, PlanId(b, cfg), titled);
  }

  lemma LeavesAre(b: Backlog, cfg: Settings, count: nat)
    requires count <= |NewLeaves(b, cfg)|
    ensures CommittedLeaves(b, cfg, count) == b.forest.leaves + NewLeaves(b, cfg)[..count]
  {}

  lemma ProposeStatus(b: Backlog, cfg: Settings, count: nat)
    requires count <= |Chunks(b.rows, cfg.target)|
    ensures Flatten(Chunks(b.rows, cfg.target)[count..]) == [] <==> count == |Chunks(b.rows, cfg.target)|
  {
    ChunksAreGreedy(b.rows, cfg.target);
    var chunks := Chunks(b.rows, cfg.target);
    if count < |chunks| {
      assert Fits(chunks[count], cfg.target);
      assert chunks[count..][0] == chunks[count];
    }
  }
}
