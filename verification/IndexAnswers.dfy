/**
 * What the tree says after an index call: each new leaf is titled by what the model was shown of the stored
 * messages in its span, each new parent by its children's titles and summaries (packages/python/src/cci/index.py).
 */
module IndexAnswers {
  import opened Wrappers
  import opened Sequences
  import opened Records
  import opened Hierarchy
  import opened HierarchyForest
  import opened HierarchyReuse
  import opened HierarchyReplan
  import opened HierarchyMade
  import opened Indexing
  import opened IndexRuns
  import opened IndexCalls
  import opened StoreInvariants
  import opened PublishInvariants

  ghost predicate SaysAnswer(n: Node, a: Answer) {
    n.title == Some(a.title) && n.summary == Some(a.summary)
  }

  /** The node says the answer, and when it was made. */
  ghost predicate Carries(n: Node, a: Answer, revision: nat) {
    SaysAnswer(n, a) && n.revision == revision
  }

  /** The leaf carries the model's answer for the texts of the stored messages in its span. */
  ghost predicate LeafSays(messages: seq<Message>, f: Forest, leaf: Node, readRows: seq<Row> -> Answer, revision: nat) {
    && leaf.id in f.nodes
    && exists rows ::
         Pending(messages, leaf.lo, leaf.hi, rows) && Carries(f.nodes[leaf.id], readRows(rows), revision)
  }

  /** The children's titles and summaries, each with its identifier, in order. */
  ghost predicate ShowsChildren(f: Forest, children: seq<Id>, shown: seq<(Id, string)>) {
    |shown| == |children| && forall j :: 0 <= j < |children| ==> ShowsChild(f, children[j], shown[j])
  }

  ghost predicate ShowsChild(f: Forest, child: Id, shown: (Id, string)) {
    && child in f.nodes && f.nodes[child].title.Some? && f.nodes[child].summary.Some?
    && shown == (child, f.nodes[child].title.value + "\n" + f.nodes[child].summary.value)
  }

  /** The parent carries the model's answer for its children's titles and summaries. */
  ghost predicate ParentSays(f: Forest, p: Id, readChildren: seq<(Id, string)> -> Answer, revision: nat)
    requires p in f.kids
  {
    && p in f.nodes
    && exists shown :: ShowsChildren(f, f.kids[p], shown) && Carries(f.nodes[p], readChildren(shown), revision)
  }

  /** Every leaf and parent that was not in the tree before says what the model answered for it. */
  ghost predicate NewSay(messages: seq<Message>, before: map<Id, Node>, f: Forest, readRows: seq<Row> -> Answer,
                         readChildren: seq<(Id, string)> -> Answer, revision: nat) {
    && (forall i :: 0 <= i < |f.leaves| && f.leaves[i].id !in before ==>
          LeafSays(messages, f, f.leaves[i], readRows, revision))
    && (forall p :: p in f.kids && p !in before ==> ParentSays(f, p, readChildren, revision))
  }

  /** A chunk of the rows of a range is the rows of its own span. */
  lemma ChunkIsPending(messages: seq<Message>, from: nat, to: nat, chunks: seq<seq<Row>>, i: nat)
    requires Pending(messages, from, to, Flatten(chunks)) && i < |chunks| && chunks[i] != []
    ensures Pending(messages, Lo(chunks[i]), Hi(chunks[i]), chunks[i])
  {
    hide *;
    ChunkAt(chunks, i);
    assert Flatten(chunks)[Start(chunks, i)..Start(chunks, i) + |chunks[i]|] == chunks[i];
    SliceIsPending(messages, from, to, Flatten(chunks), chunks[i], Start(chunks, i));
  }

  lemma SliceIsPending(messages: seq<Message>, from: nat, to: nat, rows: seq<Row>, chunk: seq<Row>, at: nat)
    requires Pending(messages, from, to, rows) && chunk != [] && at + |chunk| <= |rows|
    requires rows[at..at+|chunk|] == chunk
    ensures Pending(messages, Lo(chunk), Hi(chunk), chunk)
  {
    hide StoredSeq;
    var last := |chunk| - 1;
    assert rows[at] == chunk[0] && rows[at + last] == chunk[last];
    forall k | 0 <= k < |chunk|
      ensures Lo(chunk) <= chunk[k].seqNo <= Hi(chunk) && StoredSeq(messages, chunk[k].seqNo)
    {
      assert rows[at + k] == chunk[k];
    }
    forall m | m in messages && Lo(chunk) <= m.seqNo <= Hi(chunk) ensures HasRowAt(chunk, m.seqNo) {
      var k :| 0 <= k < |rows| && rows[k].seqNo == m.seqNo;
      assert at <= k <= at + last;
      assert rows[at + (k - at)] == chunk[k - at];
    }
    forall k, m | 0 <= k < |chunk| && m in messages && m.seqNo == chunk[k].seqNo ensures chunk[k].text == m.text {
      assert rows[at + k] == chunk[k];
    }
  }

  /** What a call with the model's answers commits says so. */
  lemma CallSays(messages: seq<Message>, from: nat, to: nat, b: Backlog, cfg: Settings, families: Families, count: nat,
                 titled: map<Id, Node>, b2: Backlog, readRows: seq<Row> -> Answer,
                 readChildren: seq<(Id, string)> -> Answer)
    requires Ready(b, cfg) && 2 <= cfg.m && Pending(messages, from, to, b.rows)
    requires 0 < count <= |NewLeaves(b, cfg)| <= |Chunks(b.rows, cfg.target)|
    requires Commits(b, cfg, families, count, titled, b2) && AllTitled(b2.forest.nodes)
    requires Answered(b, cfg, families, count, titled, readRows, readChildren)
    ensures NewSay(messages, b.forest.nodes, b2.forest, readRows, readChildren, b.revision + 1)
  {
    hide *;
    CommitParts(b, cfg, families, count, titled, b2);
    var f, before, revision := b2.forest, b.forest.nodes, b.revision + 1;
    forall i | 0 <= i < |f.leaves| && f.leaves[i].id !in before
      ensures LeafSays(messages, f, f.leaves[i], readRows, revision) {
      NewLeafSays(messages, from, to, b, cfg, families, count, titled, b2, readRows, readChildren, i);
    }
    forall p | p in f.kids && p !in before ensures ParentSays(f, p, readChildren, revision) {
      NewParentSays(b, cfg, families, count, titled, b2, readRows, readChildren, p);
    }
    NewSayWhole(messages, before, f, readRows, readChildren, revision);
  }

  lemma NewSayWhole(messages: seq<Message>, before: map<Id, Node>, f: Forest, readRows: seq<Row> -> Answer,
                    readChildren: seq<(Id, string)> -> Answer, revision: nat)
    requires forall i :: 0 <= i < |f.leaves| && f.leaves[i].id !in before ==>
               LeafSays(messages, f, f.leaves[i], readRows, revision)
    requires forall p :: p in f.kids && p !in before ==> ParentSays(f, p, readChildren, revision)
    ensures NewSay(messages, before, f, readRows, readChildren, revision)
  {
    hide LeafSays, ParentSays;
  }

  lemma NewLeafSays(messages: seq<Message>, from: nat, to: nat, b: Backlog, cfg: Settings, families: Families,
                    count: nat, titled: map<Id, Node>, b2: Backlog, readRows: seq<Row> -> Answer,
                    readChildren: seq<(Id, string)> -> Answer, i: nat)
    requires Ready(b, cfg) && 2 <= cfg.m && Pending(messages, from, to, b.rows)
    requires 0 < count <= |NewLeaves(b, cfg)| <= |Chunks(b.rows, cfg.target)|
    requires Commits(b, cfg, families, count, titled, b2)
    requires Answered(b, cfg, families, count, titled, readRows, readChildren)
    requires i < |b2.forest.leaves| && b2.forest.leaves[i].id !in b.forest.nodes
    ensures LeafSays(messages, b2.forest, b2.forest.leaves[i], readRows, b.revision + 1)
  {
    hide *;
    var j := NewLeafAt(b, cfg, families, count, titled, b2, i);
    AnsweredLeaf(b, cfg, families, count, titled, readRows, readChildren, j);
    NewLeafPending(messages, from, to, b, cfg, j);
    NewLeafDated(b, cfg, families, count, titled, b2, j);
    LeafSaysWith(messages, b2.forest, b2.forest.leaves[i], readRows, Chunks(b.rows, cfg.target)[j], b.revision + 1);
  }

  /** Which of the new leaves a published leaf is. */
  lemma NewLeafAt(b: Backlog, cfg: Settings, families: Families, count: nat, titled: map<Id, Node>, b2: Backlog, i: nat)
    returns (j: nat)
    requires Ready(b, cfg) && 2 <= cfg.m && 0 < count <= |NewLeaves(b, cfg)|
    requires Commits(b, cfg, families, count, titled, b2)
    requires i < |b2.forest.leaves| && b2.forest.leaves[i].id !in b.forest.nodes
    ensures j < count
    ensures var leaf, n := b2.forest.leaves[i], NewLeaves(b, cfg)[j];
            leaf.id == n.id && leaf.lo == n.lo && leaf.hi == n.hi
  {
    hide *;
    CommittedLeafAt(b, cfg, families, count, titled, b2, i);
    OldLeafFiled(b, cfg, count, i);
    j := i - |b.forest.leaves|;
  }

  lemma CommittedLeafAt(b: Backlog, cfg: Settings, families: Families, count: nat, titled: map<Id, Node>, b2: Backlog,
                        i: nat)
    requires 2 <= cfg.m && 0 < count <= |NewLeaves(b, cfg)| && Commits(b, cfg, families, count, titled, b2)
    requires i < |b2.forest.leaves|
    ensures var leaf, leaves := b2.forest.leaves[i], CommittedLeaves(b, cfg, count);
            i < |leaves| && leaf.id == leaves[i].id && leaf.lo == leaves[i].lo && leaf.hi == leaves[i].hi
  {
    var leaves := CommittedLeaves(b, cfg, count);
    hide *;
    CommitParts(b, cfg, families, count, titled, b2);
    PublishedLeaf(Plan(leaves, families, cfg.m, b.revision + 1, PlanId(b, cfg)), titled, leaves, i);
  }

  /** The chunk of a new leaf is the rows of its own span. */
  lemma NewLeafPending(messages: seq<Message>, from: nat, to: nat, b: Backlog, cfg: Settings, j: nat)
    requires Pending(messages, from, to, b.rows) && j < |NewLeaves(b, cfg)|
    ensures |NewLeaves(b, cfg)| <= |Chunks(b.rows, cfg.target)|
    ensures var n := NewLeaves(b, cfg)[j]; Pending(messages, n.lo, n.hi, Chunks(b.rows, cfg.target)[j])
  {
    hide *;
    NewLeafFacts(b, cfg);
    ChunkIsPending(messages, from, to, Chunks(b.rows, cfg.target), j);
  }

  lemma LeafSaysWith(messages: seq<Message>, f: Forest, leaf: Node, readRows: seq<Row> -> Answer, rows: seq<Row>,
                     revision: nat)
    requires leaf.id in f.nodes && Pending(messages, leaf.lo, leaf.hi, rows)
    requires SaysAnswer(f.nodes[leaf.id], readRows(rows)) && f.nodes[leaf.id].revision == revision
    ensures LeafSays(messages, f, leaf, readRows, revision)
  {
    hide Pending;
  }

  lemma PublishedLeaf(plan: Climbed, titled: map<Id, Node>, leaves: seq<Node>, i: nat)
    requires (forall n :: n in leaves ==> KeepsSpan(titled, n)) && i < |PublishPlan(plan, titled, leaves).leaves|
    ensures |PublishPlan(plan, titled, leaves).leaves| == |leaves|
    ensures var n := PublishPlan(plan, titled, leaves).leaves[i];
            n.id == leaves[i].id && n.lo == leaves[i].lo && n.hi == leaves[i].hi && n.id in titled
  {
    assert KeepsSpan(titled, leaves[i]);
  }

  lemma OldLeafFiled(b: Backlog, cfg: Settings, count: nat, i: nat)
    requires Ready(b, cfg) && count <= |NewLeaves(b, cfg)| && i < |CommittedLeaves(b, cfg, count)|
    ensures |CommittedLeaves(b, cfg, count)| == |b.forest.leaves| + count
    ensures if i < |b.forest.leaves| then CommittedLeaves(b, cfg, count)[i].id in b.forest.nodes
            else CommittedLeaves(b, cfg, count)[i] == NewLeaves(b, cfg)[i - |b.forest.leaves|]
  {
    ReadyFiled(b, cfg);
    hide Ready, NewLeaves;
    if i < |b.forest.leaves| { assert b.forest.leaves[i] in b.forest.leaves; }
  }

  lemma AnsweredLeaf(b: Backlog, cfg: Settings, families: Families, count: nat, titled: map<Id, Node>,
                     readRows: seq<Row> -> Answer, readChildren: seq<(Id, string)> -> Answer, j: nat)
    requires 2 <= cfg.m && j < count <= |NewLeaves(b, cfg)| <= |Chunks(b.rows, cfg.target)|
    requires Answered(b, cfg, families, count, titled, readRows, readChildren)
    ensures var id := NewLeaves(b, cfg)[j].id;
            id in titled && SaysAnswer(titled[id], readRows(Chunks(b.rows, cfg.target)[j]))
  {
    hide NewLeaves, PlanOf, Chunks, ParentsAnswered;
    var newer, groups := NewLeaves(b, cfg)[..count], Chunks(b.rows, cfg.target)[..count];
    assert LeafAnswered(PlanOf(b, cfg, families, count).draft.nodes, newer[j].id, groups[j], readRows, titled);
  }

  lemma PlanOfIs(b: Backlog, cfg: Settings, families: Families, count: nat)
    requires 2 <= cfg.m && count <= |NewLeaves(b, cfg)|
    ensures PlanOf(b, cfg, families, count) ==
            Plan(CommittedLeaves(b, cfg, count), families, cfg.m, b.revision + 1, PlanId(b, cfg))
  {
    hide NewLeaves, PlanId, Plan;
  }

  /** A parent that was not in the tree before was asked for, about the children it has. */
  lemma NewParentAsked(b: Backlog, cfg: Settings, families: Families, count: nat, p: Id) returns (i: nat)
    requires Ready(b, cfg) && 2 <= cfg.m && count <= |NewLeaves(b, cfg)|
             && Mirrors(families, b.forest.nodes, b.forest.kids)
    requires p in PlanOf(b, cfg, families, count).draft.kids && p !in b.forest.nodes
    ensures var d := PlanOf(b, cfg, families, count).draft;
            i < |d.requests| && d.requests[i].parent == p && d.requests[i].children == d.kids[p]
  {
    var leaves := CommittedLeaves(b, cfg, count);
    hide *;
    PlanOfIs(b, cfg, families, count);
    var s := CommitSource(b, cfg, families, count);
    PlanKeepsContent(s, leaves, cfg.m, b.revision + 1, PlanId(b, cfg));
    PlanRequestsChildrenFirst(s, leaves, cfg.m, b.revision + 1, PlanId(b, cfg));
    i := RequestOf(s, PlanOf(b, cfg, families, count).draft, b.forest.nodes, b.forest.kids, p);
  }

  lemma RequestOf(s: Source, d: Draft, nodes: map<Id, Node>, kids: map<Id, seq<Id>>, p: Id) returns (i: nat)
    requires FamiliesKept(s, d.kids) && Mirrors(s.reusable, nodes, kids) && Requested(s.base, d)
    requires p in d.kids && p !in nodes
    ensures i < |d.requests| && d.requests[i].parent == p && d.requests[i].children == d.kids[p]
  {
    assert p >= s.base;
    assert AskedFor(d.requests, p);
    i :| 0 <= i < |d.requests| && d.requests[i].parent == p;
    assert Asks(s.base, d, i);
  }

  lemma NewParentSays(b: Backlog, cfg: Settings, families: Families, count: nat, titled: map<Id, Node>, b2: Backlog,
                      readRows: seq<Row> -> Answer, readChildren: seq<(Id, string)> -> Answer, p: Id)
    requires Ready(b, cfg) && 2 <= cfg.m && 0 < count <= |NewLeaves(b, cfg)| <= |Chunks(b.rows, cfg.target)|
    requires Commits(b, cfg, families, count, titled, b2) && AllTitled(b2.forest.nodes)
    requires Answered(b, cfg, families, count, titled, readRows, readChildren)
    requires p in b2.forest.kids && p !in b.forest.nodes
    ensures ParentSays(b2.forest, p, readChildren, b.revision + 1)
  {
    var plan := PlanOf(b, cfg, families, count);
    hide *;
    PlanOfIs(b, cfg, families, count);
    CommitParts(b, cfg, families, count, titled, b2);
    PublishedKids(plan, titled, CommittedLeaves(b, cfg, count));
    var i := NewParentAsked(b, cfg, families, count, p);
    AnsweredParent(b, cfg, families, count, titled, readRows, readChildren, i);
    NewParentDated(b, cfg, families, count, titled, b2, p, i);
    ParentSaysWith(b2.forest, p, readChildren, plan.draft.nodes, plan.draft.requests[i], b.revision + 1);
  }

  lemma PublishedKids(plan: Climbed, titled: map<Id, Node>, leaves: seq<Node>)
    requires forall n :: n in leaves ==> KeepsSpan(titled, n)
    ensures PublishPlan(plan, titled, leaves).kids == plan.draft.kids
  {}

  lemma AnsweredParent(b: Backlog, cfg: Settings, families: Families, count: nat, titled: map<Id, Node>,
                       readRows: seq<Row> -> Answer, readChildren: seq<(Id, string)> -> Answer, i: nat)
    requires 2 <= cfg.m && count <= |NewLeaves(b, cfg)| <= |Chunks(b.rows, cfg.target)|
    requires Answered(b, cfg, families, count, titled, readRows, readChildren)
    requires i < |PlanOf(b, cfg, families, count).draft.requests|
    ensures var d := PlanOf(b, cfg, families, count).draft;
            ParentAnswered(d.nodes, d.requests[i], readChildren, titled)
  {
    hide NewLeaves, PlanOf, Chunks, LeavesAnswered, ParentAnswered;
  }

  lemma ParentSaysWith(f: Forest, p: Id, readChildren: seq<(Id, string)> -> Answer, nodes: map<Id, Node>, r: Request,
                       revision: nat)
    requires ParentAnswered(nodes, r, readChildren, f.nodes) && AllTitled(f.nodes)
    requires r.parent == p && p in f.kids && f.kids[p] == r.children && f.nodes[p].revision == revision
    ensures ParentSays(f, p, readChildren, revision)
  {
    var shown := ChildTexts(f.nodes, r.children);
    forall j | 0 <= j < |r.children| ensures ShowsChild(f, r.children[j], shown[j]) {
      assert r.children[j] in r.children;
      assert Done(f.nodes, r.children[j]);
    }
    assert ShowsChildren(f, f.kids[p], shown);
  }

  // ---------------------------------------------------------------- when new nodes were made

  /** Titling leaves the revision of a node as it is. */
  lemma RetitledRevision(before: map<Id, Node>, after: map<Id, Node>, id: Id)
    requires Retitled(before, after) && id in before
    ensures id in after && after[id].revision == before[id].revision
  {
    assert after[id].(title := None, summary := None).revision == before[id].(title := None, summary := None).revision;
  }

  lemma NewLeafDated(b: Backlog, cfg: Settings, families: Families, count: nat, titled: map<Id, Node>, b2: Backlog,
                     j: nat)
    requires Ready(b, cfg) && 2 <= cfg.m && 0 < count <= |NewLeaves(b, cfg)| && j < count
    requires Commits(b, cfg, families, count, titled, b2)
    ensures b2.forest.nodes == titled && NewLeaves(b, cfg)[j].id in titled
    ensures titled[NewLeaves(b, cfg)[j].id].revision == b.revision + 1
  {
    var leaves := CommittedLeaves(b, cfg, count);
    hide *;
    CommitParts(b, cfg, families, count, titled, b2);
    var s := CommitSource(b, cfg, families, count);
    var d := Plan(leaves, families, cfg.m, b.revision + 1, PlanId(b, cfg)).draft;
    PlanKeepsContent(s, leaves, cfg.m, b.revision + 1, PlanId(b, cfg));
    DrawnLeaf(b, cfg, count, j, s, d);
    RetitledRevision(d.nodes, titled, NewLeaves(b, cfg)[j].id);
  }

  lemma DrawnLeaf(b: Backlog, cfg: Settings, count: nat, j: nat, s: Source, d: Draft)
    requires j < count <= |NewLeaves(b, cfg)| && LeavesKept(s.leaves, d.nodes)
    requires Input(s, CommittedLeaves(b, cfg, count), PlanId(b, cfg))
    ensures NewLeaves(b, cfg)[j].id in d.nodes && d.nodes[NewLeaves(b, cfg)[j].id].revision == b.revision + 1
  {
    var leaves, n := CommittedLeaves(b, cfg, count), NewLeaves(b, cfg)[j];
    assert n.revision == b.revision + 1;
    InputIndexed(s, leaves, PlanId(b, cfg));
    assert leaves[|b.forest.leaves| + j] == n;
    hide NewLeaves, CommittedLeaves, Input;
    IndexFacts(leaves);
    assert n in leaves;
    assert d.nodes[n.id].Content().revision == s.leaves[n.id].Content().revision;
    assert s.leaves[n.id].Content() == n.Content() && n.Content().revision == n.revision;
  }

  lemma InputIndexed(s: Source, leaves: seq<Node>, nextId: Id)
    requires Input(s, leaves, nextId)
    ensures NoDup(Ids(leaves)) && s.leaves == Index(leaves)
  {}

  lemma NewParentDated(b: Backlog, cfg: Settings, families: Families, count: nat, titled: map<Id, Node>, b2: Backlog,
                       p: Id, i: nat)
    requires Ready(b, cfg) && 2 <= cfg.m && 0 < count <= |NewLeaves(b, cfg)|
    requires Commits(b, cfg, families, count, titled, b2)
    requires var d := Plan(CommittedLeaves(b, cfg, count), families, cfg.m, b.revision + 1, PlanId(b, cfg)).draft;
             i < |d.requests| && d.requests[i].parent == p && p in titled
    ensures b2.forest.nodes == titled && titled[p].revision == b.revision + 1
  {
    var leaves := CommittedLeaves(b, cfg, count);
    hide *;
    CommitParts(b, cfg, families, count, titled, b2);
    var d := Plan(leaves, families, cfg.m, b.revision + 1, PlanId(b, cfg)).draft;
    RetitledKeys(d.nodes, titled);
    var s := CommitSource(b, cfg, families, count);
    RequestedIsMade(s, leaves, cfg.m, b.revision + 1, PlanId(b, cfg), i);
    RetitledRevision(d.nodes, titled, p);
  }

  /** A parent that was asked for is new and carries the coming revision. */
  lemma RequestedIsMade(s: Source, leaves: seq<Node>, m: nat, revision: nat, nextId: Id, i: nat)
    requires 2 <= m && Input(s, leaves, nextId)
    requires i < |Plan(leaves, s.reusable, m, revision, nextId).draft.requests|
    ensures var d := Plan(leaves, s.reusable, m, revision, nextId).draft;
            d.requests[i].parent in d.nodes ==> d.nodes[d.requests[i].parent].revision == revision
  {
    var d := Plan(leaves, s.reusable, m, revision, nextId).draft;
    hide *;
    PlanMakes(s, leaves, m, revision, nextId);
    PlanRequestsChildrenFirst(s, leaves, m, revision, nextId);
    RequestsAreNew(s.base, d);
    if d.requests[i].parent in d.nodes { BlankRevision(d.nodes, s.base, revision, d.requests[i].parent); }
  }

  lemma BlankRevision(nodes: map<Id, Node>, base: Id, revision: nat, p: Id)
    requires Blank(nodes, base, revision) && p in nodes && base <= p
    ensures nodes[p].revision == revision
  {}
}
