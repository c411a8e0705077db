/** Whole index() calls, one after another: what each commits, and why the backlog drains. */
module IndexRuns {
  import opened Wrappers
  import opened Sequences
  import opened Hierarchy
  import opened HierarchyForest
  import opened HierarchyReuse
  import opened HierarchyReplan
  import opened HierarchyPlanner
  import opened Indexing

  datatype Settings = Settings(m: nat, target: nat, limit: nat)

  /** What an index call captures: the published tree, the rows after it, and the next identifier. */
  datatype Backlog = Backlog(forest: Forest, rows: seq<Row>, nextId: Id, revision: nat)

  ghost predicate Ascending(rows: seq<Row>) {
    forall i, j :: 0 <= i < j < |rows| ==> rows[i].seqNo < rows[j].seqNo
  }

  /** The leaves are proper spans, disjoint and in order. */
  ghost predicate SpansApart(leaves: seq<Node>) {
    && (forall i :: 0 <= i < |leaves| ==> leaves[i].lo <= leaves[i].hi)
    && (forall i, j :: 0 <= i < j < |leaves| ==> leaves[i].hi < leaves[j].lo)
  }

  ghost predicate Before(leaves: seq<Node>, rows: seq<Row>) {
    forall i, j :: 0 <= i < |leaves| && 0 <= j < |rows| ==> leaves[i].hi < rows[j].seqNo
  }

  /** The leaves are disjoint spans in order, all before the pending rows. */
  ghost predicate Ordered(leaves: seq<Node>, rows: seq<Row>) {
    SpansApart(leaves) && Before(leaves, rows)
  }

  ghost predicate Ready(b: Backlog, cfg: Settings) {
    && Settled(b.forest, cfg.m)
    && (forall id :: id in b.forest.nodes ==> id < b.nextId)
    && Ascending(b.rows) && Ordered(b.forest.leaves, b.rows)
  }

  /** At most `limit` chunks are considered at all. */
  function Considered(b: Backlog, cfg: Settings): (r: seq<seq<Row>>) {
    var chunks := Chunks(b.rows, cfg.target);
    if |chunks| <= cfg.limit then chunks else chunks[..cfg.limit]
  }

  lemma ConsideredNonEmpty(b: Backlog, cfg: Settings)
    ensures forall i :: 0 <= i < |Considered(b, cfg)| ==> Considered(b, cfg)[i] != []
    ensures Considered(b, cfg) <= Chunks(b.rows, cfg.target)
  {
    ChunksAreGreedy(b.rows, cfg.target);
    forall i | 0 <= i < |Considered(b, cfg)| ensures Considered(b, cfg)[i] != [] {
      assert Fits(Chunks(b.rows, cfg.target)[i], cfg.target);
    }
  }

  function NewLeaves(b: Backlog, cfg: Settings): seq<Node> {
    ConsideredNonEmpty(b, cfg);
    LeavesFor(Considered(b, cfg), b.nextId, b.revision + 1)
  }

  /** The identifier supply after the new leaves are drawn. */
  function PlanId(b: Backlog, cfg: Settings): Id {
    b.nextId + |NewLeaves(b, cfg)|
  }

  function PlanOf(b: Backlog, cfg: Settings, families: Families, count: nat): Climbed
    requires 2 <= cfg.m && count <= |NewLeaves(b, cfg)|
  {
    Plan(b.forest.leaves + NewLeaves(b, cfg)[..count], families, cfg.m, b.revision + 1, PlanId(b, cfg))
  }

  /**
   * One conflict-free call that commits `count` chunks, with the model's titles in `titled`: only the
   * new leaves and the requested parents are titled, everything else keeps what it said.
   */
  ghost predicate Commits(b: Backlog, cfg: Settings, families: Families, count: nat, titled: map<Id, Node>, b2: Backlog)
    requires 2 <= cfg.m
  {
    && Mirrors(families, b.forest.nodes, b.forest.kids)
    && LargestFit(b.forest.leaves, NewLeaves(b, cfg), count, families, cfg.m, b.revision + 1, PlanId(b, cfg), cfg.limit)
    && var leaves := b.forest.leaves + NewLeaves(b, cfg)[..count];
    if count == 0 then b2 == b
    else
      && Retitled(PlanOf(b, cfg, families, count).draft.nodes, titled)
      && OthersKept(PlanOf(b, cfg, families, count).draft.nodes, NewLeaves(b, cfg)[..count],
                    PlanOf(b, cfg, families, count).draft.requests, titled)
      && (forall n :: n in leaves ==> KeepsSpan(titled, n))
      && b2 == Backlog(PublishPlan(PlanOf(b, cfg, families, count), titled, leaves),
                       Flatten(Chunks(b.rows, cfg.target)[count..]),
                       PlanOf(b, cfg, families, count).draft.nextId, b.revision + 1)
  }

  ghost predicate IndexCall(b: Backlog, cfg: Settings, b2: Backlog)
    requires 2 <= cfg.m
  {
    exists families, count, titled :: Commits(b, cfg, families, count, titled, b2)
  }

  // ---------------------------------------------------------------- spans of consecutive chunks

  lemma {:induction false} FlattenSplit(a: seq<seq<Row>>, b: seq<seq<Row>>)
    ensures Flatten(a + b) == Flatten(a) + Flatten(b)
  {
    if a == [] {
      assert a + b == b;
    } else {
      FlattenSplit(a[1..], b);
      assert (a + b)[1..] == a[1..] + b;
      assert Flatten(a + b) == a[0] + (Flatten(a[1..]) + Flatten(b));
    }
  }

  function Lo(chunk: seq<Row>): nat requires chunk != [] { chunk[0].seqNo }
  function Hi(chunk: seq<Row>): nat requires chunk != [] { chunk[|chunk|-1].seqNo }

  ghost predicate Nonempty(chunks: seq<seq<Row>>) {
    forall i :: 0 <= i < |chunks| ==> chunks[i] != []
  }

  /** Where chunk `i` begins among the rows. */
  function Start(chunks: seq<seq<Row>>, i: nat): nat
    requires i <= |chunks|
  {
    |Flatten(chunks[..i])|
  }

  lemma StartNext(chunks: seq<seq<Row>>, i: nat)
    requires i < |chunks|
    ensures Start(chunks, i + 1) == Start(chunks, i) + |chunks[i]|
  {
    assert chunks[..i+1] == chunks[..i] + [chunks[i]];
    FlattenSplit(chunks[..i], [chunks[i]]);
    assert Flatten([chunks[i]]) == chunks[i] + Flatten([]);
  }

  lemma {:induction false} StartMonotone(chunks: seq<seq<Row>>, i: nat, j: nat)
    requires i <= j <= |chunks|
    ensures Start(chunks, i) <= Start(chunks, j)
    decreases j
  {
    if i < j {
      StartNext(chunks, j - 1);
      StartMonotone(chunks, i, j - 1);
    }
  }

  /** Chunk `i` is the run of rows at its place. */
  lemma ChunkAt(chunks: seq<seq<Row>>, i: nat)
    requires i < |chunks|
    ensures Start(chunks, i) + |chunks[i]| <= |Flatten(chunks)|
    ensures forall k :: 0 <= k < |chunks[i]| ==> Flatten(chunks)[Start(chunks, i) + k] == chunks[i][k]
  {
    assert chunks == chunks[..i] + chunks[i..];
    FlattenSplit(chunks[..i], chunks[i..]);
    assert Flatten(chunks[i..]) == chunks[i] + Flatten(chunks[i..][1..]);
  }

  /** Every row is in some chunk. */
  lemma {:induction false} LocateRow(chunks: seq<seq<Row>>, n: nat, k: nat) returns (i: nat)
    requires n <= |chunks| && k < Start(chunks, n)
    ensures i < n && Start(chunks, i) <= k < Start(chunks, i) + |chunks[i]|
  {
    assert chunks[..0] == [];
    StartNext(chunks, n - 1);
    if k < Start(chunks, n - 1) {
      i := LocateRow(chunks, n - 1, k);
    } else {
      i := n - 1;
    }
  }

  /** A chunk's span starts and ends at rows, and lies wholly before the next chunk's span. */
  lemma ChunkSpan(chunks: seq<seq<Row>>, i: nat)
    requires i < |chunks| && chunks[i] != [] && Ascending(Flatten(chunks))
    ensures Start(chunks, i + 1) == Start(chunks, i) + |chunks[i]| <= |Flatten(chunks)|
    ensures Lo(chunks[i]) == Flatten(chunks)[Start(chunks, i)].seqNo
    ensures Hi(chunks[i]) == Flatten(chunks)[Start(chunks, i + 1) - 1].seqNo
    ensures Lo(chunks[i]) <= Hi(chunks[i])
  {
    ChunkAt(chunks, i);
    StartNext(chunks, i);
    assert chunks[i][0] == Flatten(chunks)[Start(chunks, i) + 0];
    assert chunks[i][|chunks[i]|-1] == Flatten(chunks)[Start(chunks, i) + (|chunks[i]|-1)];
  }

  lemma SpansInOrder(chunks: seq<seq<Row>>, i: nat, j: nat)
    requires i < j < |chunks| && chunks[i] != [] && chunks[j] != [] && Ascending(Flatten(chunks))
    ensures Hi(chunks[i]) < Lo(chunks[j])
  {
    ChunkSpan(chunks, i);
    ChunkSpan(chunks, j);
    StartMonotone(chunks, i + 1, j);
  }

  lemma RowInSpan(chunks: seq<seq<Row>>, n: nat, k: nat) returns (i: nat)
    requires n <= |chunks| && k < Start(chunks, n) && Nonempty(chunks) && Ascending(Flatten(chunks))
    ensures k < |Flatten(chunks)|
    ensures i < n && Lo(chunks[i]) <= Flatten(chunks)[k].seqNo <= Hi(chunks[i])
  {
    i := LocateRow(chunks, n, k);
    ChunkSpan(chunks, i);
    var rows := Flatten(chunks);
    assert Start(chunks, i) < k ==> rows[Start(chunks, i)].seqNo < rows[k].seqNo;
    assert k < Start(chunks, i + 1) - 1 ==> rows[k].seqNo < rows[Start(chunks, i + 1) - 1].seqNo;
  }

  // ---------------------------------------------------------------- what a call commits

  lemma NewLeafFacts(b: Backlog, cfg: Settings)
    ensures |NewLeaves(b, cfg)| == |Considered(b, cfg)| <= cfg.limit
    ensures |NewLeaves(b, cfg)| <= |Chunks(b.rows, cfg.target)|
    ensures Nonempty(Chunks(b.rows, cfg.target)) && Flatten(Chunks(b.rows, cfg.target)) == b.rows
    ensures forall i :: 0 <= i < |NewLeaves(b, cfg)| ==>
              var n := NewLeaves(b, cfg)[i];
              && n.id == b.nextId + i && n.parent == None
              && Chunks(b.rows, cfg.target)[i] != []
              && n.lo == Lo(Chunks(b.rows, cfg.target)[i]) && n.hi == Hi(Chunks(b.rows, cfg.target)[i])
  {
    ConsideredNonEmpty(b, cfg);
    ChunksAreGreedy(b.rows, cfg.target);
    var chunks := Chunks(b.rows, cfg.target);
    forall i | 0 <= i < |chunks| ensures chunks[i] != [] {
      assert Fits(chunks[i], cfg.target);
    }
  }

  /** The tree's leaves followed by the first `count` new ones are still disjoint ascending spans. */
  lemma LeavesExtended(b: Backlog, cfg: Settings, count: nat)
    requires Ordered(b.forest.leaves, b.rows) && Ascending(b.rows) && count <= |NewLeaves(b, cfg)|
    ensures var chunks := Chunks(b.rows, cfg.target);
            Ordered(b.forest.leaves + NewLeaves(b, cfg)[..count], Flatten(chunks[count..]))
  {
    NewLeafFacts(b, cfg);
    var chunks := Chunks(b.rows, cfg.target);
    ChunkLeavesOf(chunks, NewLeaves(b, cfg), count);
    hide *;
    JoinOrdered(b.forest.leaves, NewLeaves(b, cfg)[..count], chunks, count);
  }

  /** Leaf `i` spans chunk `i`. */
  ghost predicate ChunkLeaves(chunks: seq<seq<Row>>, newer: seq<Node>) {
    |newer| <= |chunks| && Nonempty(chunks) &&
    forall i :: 0 <= i < |newer| ==> chunks[i] != [] && newer[i].lo == Lo(chunks[i]) && newer[i].hi == Hi(chunks[i])
  }

  lemma ChunkLeavesOf(chunks: seq<seq<Row>>, all: seq<Node>, count: nat)
    requires count <= |all| <= |chunks| && Nonempty(chunks)
    requires forall i :: 0 <= i < |all| ==> chunks[i] != [] && all[i].lo == Lo(chunks[i]) && all[i].hi == Hi(chunks[i])
    ensures ChunkLeaves(chunks, all[..count])
  {}

  /** One leaf's span is proper, lies before every later leaf's, and before every row of a later chunk. */
  lemma LeafPlace(chunks: seq<seq<Row>>, newer: seq<Node>, i: nat)
    requires ChunkLeaves(chunks, newer) && Ascending(Flatten(chunks)) && i < |newer|
    ensures newer[i].lo <= newer[i].hi && Start(chunks, i + 1) <= |Flatten(chunks)|
            && Start(chunks, i) < Start(chunks, i + 1)
    ensures newer[i].lo == Flatten(chunks)[Start(chunks, i)].seqNo
            && newer[i].hi == Flatten(chunks)[Start(chunks, i + 1) - 1].seqNo
    ensures forall j :: i < j < |newer| ==> newer[i].hi < newer[j].lo
  {
    hide Flatten, Start, Ascending, Lo, Hi;
    ChunkSpan(chunks, i);
    forall j | i < j < |newer| ensures newer[i].hi < newer[j].lo {
      SpansInOrder(chunks, i, j);
    }
  }

  lemma JoinOrdered(older: seq<Node>, newer: seq<Node>, chunks: seq<seq<Row>>, count: nat)
    requires Ordered(older, Flatten(chunks)) && Ascending(Flatten(chunks)) && ChunkLeaves(chunks, newer)
             && count == |newer| <= |chunks|
    ensures Ordered(older + newer, Flatten(chunks[count..]))
  {
    var rest := Flatten(chunks[count..]);
    hide *;
    OrderedParts(older, Flatten(chunks));
    JoinApart(older, newer, chunks);
    BeforeRest(older, chunks, count);
    forall i, j | 0 <= i < |newer| && 0 <= j < |rest| ensures newer[i].hi < rest[j].seqNo {
      LeafBeforeRest(chunks, newer, i, count, j);
    }
    BeforeJoin(older, newer, rest);
    OrderedWhole(older + newer, rest);
  }

  lemma OrderedParts(leaves: seq<Node>, rows: seq<Row>)
    requires Ordered(leaves, rows)
    ensures SpansApart(leaves) && Before(leaves, rows)
  {}

  lemma OrderedWhole(leaves: seq<Node>, rows: seq<Row>)
    requires SpansApart(leaves) && Before(leaves, rows)
    ensures Ordered(leaves, rows)
  {}

  lemma BeforeJoin(a: seq<Node>, b: seq<Node>, rows: seq<Row>)
    requires Before(a, rows) && forall i, j :: 0 <= i < |b| && 0 <= j < |rows| ==> b[i].hi < rows[j].seqNo
    ensures Before(a + b, rows)
  {}

  lemma BeforeRest(leaves: seq<Node>, chunks: seq<seq<Row>>, count: nat)
    requires Before(leaves, Flatten(chunks)) && count <= |chunks|
    ensures Before(leaves, Flatten(chunks[count..]))
  {
    var rest := Flatten(chunks[count..]);
    hide Flatten, Start;
    forall i, j | 0 <= i < |leaves| && 0 <= j < |rest| ensures leaves[i].hi < rest[j].seqNo {
      RestStart(chunks, count, j);
    }
  }

  lemma LeafBeforeRest(chunks: seq<seq<Row>>, newer: seq<Node>, i: nat, count: nat, j: nat)
    requires Ascending(Flatten(chunks)) && ChunkLeaves(chunks, newer) && i < count == |newer| <= |chunks|
    requires j < |Flatten(chunks[count..])|
    ensures newer[i].hi < Flatten(chunks[count..])[j].seqNo
  {
    hide Flatten, ChunkLeaves, Start;
    RestStart(chunks, count, j);
    LeafPlace(chunks, newer, i);
    StartMonotone(chunks, i + 1, count);
  }

  lemma JoinApart(older: seq<Node>, newer: seq<Node>, chunks: seq<seq<Row>>)
    requires SpansApart(older) && Before(older, Flatten(chunks)) && Ascending(Flatten(chunks))
             && ChunkLeaves(chunks, newer)
    ensures SpansApart(older + newer)
  {
    hide Flatten, ChunkLeaves, Start, Ascending;
    forall i | 0 <= i < |newer|
      ensures newer[i].lo <= newer[i].hi && forall j :: i < j < |newer| ==> newer[i].hi < newer[j].lo
      ensures forall k :: 0 <= k < |older| ==> older[k].hi < newer[i].lo
    {
      LeafPlace(chunks, newer, i);
    }
  }

  /** Row `j` after the first `count` chunks is row `Start(count) + j`. */
  lemma RestStart(chunks: seq<seq<Row>>, count: nat, j: nat)
    requires count <= |chunks| && j < |Flatten(chunks[count..])|
    ensures Start(chunks, count) + j < |Flatten(chunks)|
    ensures Flatten(chunks)[Start(chunks, count) + j] == Flatten(chunks[count..])[j]
    ensures |Flatten(chunks[count..])| == |Flatten(chunks)| - Start(chunks, count)
  {
    assert chunks == chunks[..count] + chunks[count..];
    FlattenSplit(chunks[..count], chunks[count..]);
  }

  lemma LeavesAreLater(b: Backlog, cfg: Settings, count: nat)
    requires Ready(b, cfg) && count <= |NewLeaves(b, cfg)|
    ensures Later(b.forest, NewLeaves(b, cfg)[..count], PlanId(b, cfg))
  {
    var older, newer := b.forest.leaves, NewLeaves(b, cfg)[..count];
    NewLeafFacts(b, cfg);
    assert forall i :: 0 <= i < |newer| ==> newer[i].id == b.nextId + i;
    LaterWhole(b.forest, newer, PlanId(b, cfg));
    assert b.nextId + |newer| <= PlanId(b, cfg);
    hide *;
    ReadyParts(b, cfg);
    SettledLeaves(b.forest, cfg.m);
    LeavesExtended(b, cfg, count);
    OrderedChronological(older + newer, Flatten(Chunks(b.rows, cfg.target)[count..]));
    OlderIds(b.forest, b.nextId);
    DistinctIds(older, newer, b.nextId);
    NewerIds(b.forest, newer, b.nextId, PlanId(b, cfg));
  }

  lemma LaterWhole(f: Forest, xs: seq<Node>, nextId: Id)
    ensures (NoDup(Ids(f.leaves + xs)) && Chronological(f.leaves + xs)
             && (forall id :: id in f.nodes ==> id < nextId) &&
             (forall x :: x in xs ==> x.id < nextId && x.id !in f.nodes)) ==> Later(f, xs, nextId)
  {
    hide NoDup, Chronological;
  }

  lemma OlderIds(f: Forest, base: Id)
    requires LeavesFiled(f.nodes, f.leaves) && forall id :: id in f.nodes ==> id < base
    ensures forall i :: 0 <= i < |f.leaves| ==> f.leaves[i].id < base
  {
    forall i | 0 <= i < |f.leaves| ensures f.leaves[i].id < base {
      FiledLeaf(f, i);
    }
  }

  lemma NewerIds(f: Forest, newer: seq<Node>, base: Id, nextId: Id)
    requires (forall id :: id in f.nodes ==> id < base) && base + |newer| <= nextId
    requires forall i :: 0 <= i < |newer| ==> newer[i].id == base + i
    ensures (forall id :: id in f.nodes ==> id < nextId) && forall x :: x in newer ==> x.id < nextId && x.id !in f.nodes
  {}

  lemma SettledLeaves(f: Forest, m: nat)
    requires Settled(f, m)
    ensures NoDup(Ids(f.leaves)) && LeavesFiled(f.nodes, f.leaves)
  {}

  lemma OrderedChronological(leaves: seq<Node>, rows: seq<Row>)
    requires Ordered(leaves, rows)
    ensures Chronological(leaves)
  {}

  lemma DistinctIds(older: seq<Node>, newer: seq<Node>, base: Id)
    requires NoDup(Ids(older)) && (forall i :: 0 <= i < |older| ==> older[i].id < base)
    requires forall i :: 0 <= i < |newer| ==> newer[i].id == base + i
    ensures NoDup(Ids(older + newer))
  {
    var ids := Ids(older + newer);
    forall i, j | 0 <= i < j < |ids| ensures ids[i] != ids[j] {
      if j < |older| {
        assert ids[i] == Ids(older)[i] && ids[j] == Ids(older)[j];
      }
    }
  }

  lemma FiledLeaf(f: Forest, i: nat)
    requires LeavesFiled(f.nodes, f.leaves) && i < |f.leaves|
    ensures f.leaves[i].id in f.nodes && f.nodes[f.leaves[i].id] == f.leaves[i]
  {
    assert f.leaves[i] in f.leaves;
  }

  lemma CallInput(b: Backlog, cfg: Settings, families: Families, count: nat)
    requires Ready(b, cfg) && count <= |NewLeaves(b, cfg)| && Mirrors(families, b.forest.nodes, b.forest.kids)
    ensures var xs := NewLeaves(b, cfg)[..count];
            && Input(SourceOf(b.forest, xs, families, PlanId(b, cfg)), b.forest.leaves + xs, PlanId(b, cfg))
            && Chronological(b.forest.leaves + xs) && Later(b.forest, xs, PlanId(b, cfg))
  {
    LeavesAreLater(b, cfg, count);
    SettledParts(b.forest, cfg.m);
    hide Ready, Settled, NewLeaves, Input, Rooted, Mirrors, AllKeep, Layered;
    SettledInput(b.forest, NewLeaves(b, cfg)[..count], families, PlanId(b, cfg));
  }

  function CommittedLeaves(b: Backlog, cfg: Settings, count: nat): seq<Node>
    requires count <= |NewLeaves(b, cfg)|
  {
    b.forest.leaves + NewLeaves(b, cfg)[..count]
  }

  lemma CommitParts(b: Backlog, cfg: Settings, families: Families, count: nat, titled: map<Id, Node>, b2: Backlog)
    requires 2 <= cfg.m && count > 0 && Commits(b, cfg, families, count, titled, b2)
    ensures Mirrors(families, b.forest.nodes, b.forest.kids) && count <= |NewLeaves(b, cfg)|
    ensures var leaves := CommittedLeaves(b, cfg, count);
            var plan := Plan(leaves, families, cfg.m, b.revision + 1, PlanId(b, cfg));
            && Retitled(plan.draft.nodes, titled) && (forall n :: n in leaves ==> KeepsSpan(titled, n))
            && b2.forest == PublishPlan(plan, titled, leaves) && b2.nextId == plan.draft.nextId
            && b2.rows == Flatten(Chunks(b.rows, cfg.target)[count..]) && b2.revision == b.revision + 1
            && b2.forest.nodes == titled
            && OthersKept(plan.draft.nodes, NewLeaves(b, cfg)[..count], plan.draft.requests, titled)
  {
    hide Mirrors, Retitled, OthersKept, KeepsSpan, Flatten, Chunks, NewLeaves, Plan, PlanId, Calls;
  }

  lemma CallSource(b: Backlog, cfg: Settings, families: Families, count: nat) returns (s: Source)
    requires Ready(b, cfg) && count <= |NewLeaves(b, cfg)| && Mirrors(families, b.forest.nodes, b.forest.kids)
    ensures s.reusable == families && Input(s, CommittedLeaves(b, cfg, count), PlanId(b, cfg))
    ensures Chronological(CommittedLeaves(b, cfg, count)) && 2 <= cfg.m
  {
    CallInput(b, cfg, families, count);
    s := SourceOf(b.forest, NewLeaves(b, cfg)[..count], families, PlanId(b, cfg));
    hide Input, NewLeaves, PlanId, Mirrors, Ordered, Ascending, Rooted, Fanout, Layered, Reached;
  }

  /** After a call that commits, the store is ready for the next one, with `count` leaves more and fewer rows. */
  lemma CommitKeepsReady(b: Backlog, cfg: Settings, families: Families, count: nat, titled: map<Id, Node>, b2: Backlog)
    requires Ready(b, cfg) && count > 0 && Commits(b, cfg, families, count, titled, b2)
    ensures Ready(b2, cfg)
    ensures |b2.forest.leaves| == |b.forest.leaves| + count
    ensures |b2.rows| + count <= |b.rows| && b2.rows == b.rows[|b.rows| - |b2.rows|..]
  {
    hide *;
    ReadyParts(b, cfg);
    CommitParts(b, cfg, families, count, titled, b2);
    CommitRows(b, cfg, count);
    CommitSettles(b, cfg, families, count, titled, b2);
    CommitIds(b, cfg, families, count, titled, b2);
    SpansKept(CommittedLeaves(b, cfg, count), b2.forest.leaves, b2.rows);
    ReadyWhole(b2, cfg);
  }

  lemma ReadyParts(b: Backlog, cfg: Settings)
    requires Ready(b, cfg)
    ensures 2 <= cfg.m && Ascending(b.rows) && Ordered(b.forest.leaves, b.rows) && Settled(b.forest, cfg.m)
    ensures forall id :: id in b.forest.nodes ==> id < b.nextId
  {}

  lemma CommitRows(b: Backlog, cfg: Settings, count: nat)
    requires Ascending(b.rows) && Ordered(b.forest.leaves, b.rows) && count <= |NewLeaves(b, cfg)|
    ensures |NewLeaves(b, cfg)| <= |Chunks(b.rows, cfg.target)|
    ensures var rest := Flatten(Chunks(b.rows, cfg.target)[count..]);
            && |rest| + count <= |b.rows| && rest == b.rows[|b.rows| - |rest|..]
            && Ordered(CommittedLeaves(b, cfg, count), rest) && Ascending(rest)
    ensures |CommittedLeaves(b, cfg, count)| == |b.forest.leaves| + count
  {
    NewLeafFacts(b, cfg);
    LeavesExtended(b, cfg, count);
    hide NewLeaves, Chunks, Flatten, Ordered, Lo, Hi;
    RestRows(Chunks(b.rows, cfg.target), count);
  }

  lemma ReadyWhole(b: Backlog, cfg: Settings)
    requires Settled(b.forest, cfg.m) && (forall id :: id in b.forest.nodes ==> id < b.nextId)
    requires Ascending(b.rows) && Ordered(b.forest.leaves, b.rows)
    ensures Ready(b, cfg)
  {}

  lemma {:induction false} RestRows(chunks: seq<seq<Row>>, count: nat)
    requires Nonempty(chunks) && count <= |chunks|
    ensures |Flatten(chunks[count..])| + count <= |Flatten(chunks)|
    ensures Flatten(chunks[count..]) == Flatten(chunks)[|Flatten(chunks)| - |Flatten(chunks[count..])|..]
  {
    assert chunks == chunks[..count] + chunks[count..];
    FlattenSplit(chunks[..count], chunks[count..]);
    StartAtLeast(chunks, count);
  }

  lemma {:induction false} StartAtLeast(chunks: seq<seq<Row>>, count: nat)
    requires Nonempty(chunks) && count <= |chunks|
    ensures Start(chunks, count) >= count
  {
    if count > 0 {
      StartNext(chunks, count - 1);
      StartAtLeast(chunks, count - 1);
    }
  }

  lemma SpansKept(leaves: seq<Node>, kept: seq<Node>, rows: seq<Row>)
    requires Ordered(leaves, rows) && |kept| == |leaves|
    requires forall i :: 0 <= i < |leaves| ==> kept[i].lo == leaves[i].lo && kept[i].hi == leaves[i].hi
    ensures Ordered(kept, rows)
  {}

  lemma CommitSettles(b: Backlog, cfg: Settings, families: Families, count: nat, titled: map<Id, Node>, b2: Backlog)
    requires Ready(b, cfg) && count > 0 && Commits(b, cfg, families, count, titled, b2)
    ensures Settled(b2.forest, cfg.m) && count <= |NewLeaves(b, cfg)|
    ensures var leaves := CommittedLeaves(b, cfg, count);
            && |b2.forest.leaves| == |leaves|
            && forall i :: 0 <= i < |leaves| ==>
                 b2.forest.leaves[i].lo == leaves[i].lo && b2.forest.leaves[i].hi == leaves[i].hi
  {
    hide Commits, Settled, Input, NewLeaves, Mirrors, Retitled, Plan, Ready, CommittedLeaves, PlanId, Chronological,
         Flatten, Chunks;
    assert 2 <= cfg.m by { ReadyFanout(b, cfg); }
    CommitParts(b, cfg, families, count, titled, b2);
    var leaves := CommittedLeaves(b, cfg, count);
    var s := CallSource(b, cfg, families, count);
    PlanSettles(s, leaves, cfg.m, b.revision + 1, PlanId(b, cfg), titled);
    forall i | 0 <= i < |leaves|
      ensures b2.forest.leaves[i].lo == leaves[i].lo && b2.forest.leaves[i].hi == leaves[i].hi
    {
      assert KeepsSpan(titled, leaves[i]);
    }
  }

  lemma ReadyFanout(b: Backlog, cfg: Settings)
    requires Ready(b, cfg)
    ensures 2 <= cfg.m
  {}

  lemma CommitIds(b: Backlog, cfg: Settings, families: Families, count: nat, titled: map<Id, Node>, b2: Backlog)
    requires Ready(b, cfg) && count > 0 && Commits(b, cfg, families, count, titled, b2)
    ensures forall id :: id in b2.forest.nodes ==> id < b2.nextId
    ensures b.nextId <= b2.nextId
  {
    hide Commits, Settled, Input, NewLeaves, Mirrors, Retitled, Plan, Ready, CommittedLeaves, Chronological, Flatten,
         Chunks;
    ReadyFanout(b, cfg);
    CommitParts(b, cfg, families, count, titled, b2);
    var leaves := CommittedLeaves(b, cfg, count);
    var s := CallSource(b, cfg, families, count);
    PlanIdsBounded(s, leaves, cfg.m, b.revision + 1, PlanId(b, cfg));
    RetitledKeys(Plan(leaves, families, cfg.m, b.revision + 1, PlanId(b, cfg)).draft.nodes, titled);
  }

  lemma PlanIdsBounded(s: Source, leaves: seq<Node>, m: nat, revision: nat, nextId: Id)
    requires 2 <= m && Input(s, leaves, nextId)
    ensures var d := Plan(leaves, s.reusable, m, revision, nextId).draft;
            nextId <= d.nextId && forall id :: id in d.nodes ==> id < d.nextId
  {
    var d := Draft(Index(leaves), map[], [], nextId);
    StartSound(s, leaves, m, nextId);
    ClimbSound(s, d, LeafLayer(leaves), m, revision);
    LeafLayerCovered(leaves);
    PlanTop(s, leaves, m, revision, nextId);
    hide Plan, Rooted, Requested, Fanout, LeavesKept, ParentsKept, FamiliesKept, Reliable;
    assert Sourced(s, Climb(d, LeafLayer(leaves), m, s.reusable, revision).draft);
  }

  // ---------------------------------------------------------------- progress and draining

  lemma {:induction false} WidthMonotone(a: nat, b: nat, m: nat)
    requires 0 < m && a <= b
    ensures Width(a, m) <= Width(b, m)
  {
    if a > m {
      WidthMonotone(a - m, b - m, m);
    }
  }

  lemma {:induction false} HeightMonotone(a: nat, b: nat, m: nat)
    requires 2 <= m && a <= b
    ensures Height(a, m) <= Height(b, m)
  {
    if a > m {
      WidthMonotone(a, b, m);
      WidthShrinks(a, m);
      WidthShrinks(b, m);
      HeightMonotone(Width(a, m), Width(b, m), m);
    }
  }

  lemma OneLeafFits(b: Backlog, cfg: Settings, families: Families)
    requires Ready(b, cfg) && b.rows != [] && cfg.limit > Height(|b.forest.leaves| + 1, cfg.m)
    requires Mirrors(families, b.forest.nodes, b.forest.kids)
    ensures |NewLeaves(b, cfg)| >= 1
    ensures Calls(b.forest.leaves, NewLeaves(b, cfg), 1, families, cfg.m, b.revision + 1, PlanId(b, cfg)) <= cfg.limit
  {
    var xs := NewLeaves(b, cfg);
    SomeLeaf(b, cfg);
    OneLater(b, cfg);
    hide *;
    ReadyParts(b, cfg);
    AppendAsksAtMost(b.forest, xs[0], families, cfg.m, b.revision + 1, PlanId(b, cfg));
    OneCall(b.forest.leaves, xs, families, cfg.m, b.revision + 1, PlanId(b, cfg));
  }

  lemma OneLater(b: Backlog, cfg: Settings)
    requires Ready(b, cfg) && |NewLeaves(b, cfg)| >= 1
    ensures Later(b.forest, [NewLeaves(b, cfg)[0]], PlanId(b, cfg))
  {
    hide Ready, NewLeaves, PlanId, Later;
    LeavesAreLater(b, cfg, 1);
    assert NewLeaves(b, cfg)[..1] == [NewLeaves(b, cfg)[0]];
  }

  lemma SomeLeaf(b: Backlog, cfg: Settings)
    requires b.rows != [] && cfg.limit > 0
    ensures |NewLeaves(b, cfg)| >= 1
  {
    ChunksAreGreedy(b.rows, cfg.target);
    NewLeafFacts(b, cfg);
  }

  lemma OneCall(older: seq<Node>, xs: seq<Node>, families: Families, m: nat, revision: nat, nextId: Id)
    requires 2 <= m && |xs| >= 1
    ensures Calls(older, xs, 1, families, m, revision, nextId) ==
            1 + |Plan(older + [xs[0]], families, m, revision, nextId).draft.requests|
  {
    assert xs[..1] == [xs[0]];
  }

  /** A limit above the new plan's height always admits at least one chunk. */
  lemma CallCommitsSome(b: Backlog, cfg: Settings, families: Families, count: nat, titled: map<Id, Node>, b2: Backlog)
    requires Ready(b, cfg) && b.rows != [] && cfg.limit > Height(|b.forest.leaves| + 1, cfg.m)
    requires Commits(b, cfg, families, count, titled, b2)
    ensures count > 0
  {
    hide Ready, Mirrors, NewLeaves, Calls, PlanId, Height, Retitled, PlanOf, Chunks, Flatten;
    OneLeafFits(b, cfg, families);
  }

  /** However many chunks are pending, no more of them could have been committed within the limit. */
  lemma CountIsLargest(b: Backlog, cfg: Settings, families: Families, count: nat, titled: map<Id, Node>, b2: Backlog,
                       more: nat)
    requires 2 <= cfg.m && Commits(b, cfg, families, count, titled, b2)
    requires count < more <= |Chunks(b.rows, cfg.target)|
    ensures Nonempty(Chunks(b.rows, cfg.target)[..more])
    ensures var leaves := b.forest.leaves + LeavesFor(Chunks(b.rows, cfg.target)[..more], b.nextId, b.revision + 1);
            more + |Plan(leaves, families, cfg.m, b.revision + 1, PlanId(b, cfg)).draft.requests| > cfg.limit
  {
    FirstLeaves(b, cfg, more);
    hide *;
    NewLeafFacts(b, cfg);
    if more <= |NewLeaves(b, cfg)| {
      CommitIsLargest(b, cfg, families, count, titled, b2, more);
      CallsAre(b.forest.leaves, NewLeaves(b, cfg), more, families, cfg.m, b.revision + 1, PlanId(b, cfg));
    }
  }

  lemma CommitIsLargest(b: Backlog, cfg: Settings, families: Families, count: nat, titled: map<Id, Node>, b2: Backlog,
                        more: nat)
    requires 2 <= cfg.m && Commits(b, cfg, families, count, titled, b2) && count < more <= |NewLeaves(b, cfg)|
    ensures Calls(b.forest.leaves, NewLeaves(b, cfg), more, families, cfg.m, b.revision + 1, PlanId(b, cfg)) > cfg.limit
  {
    hide Chunks, Plan, PlanId, PublishPlan, Retitled, OthersKept, Mirrors, Flatten, NewLeaves, Calls, PlanOf;
  }

  lemma CallsAre(older: seq<Node>, newer: seq<Node>, count: nat, families: Families, m: nat, revision: nat, nextId: Id)
    requires 2 <= m && count <= |newer|
    ensures Calls(older, newer, count, families, m, revision, nextId) ==
            count + |Plan(older + newer[..count], families, m, revision, nextId).draft.requests|
  {
    hide Plan;
  }

  /** The leaves of the first chunks are the first leaves drawn, as far as any were. */
  lemma FirstLeaves(b: Backlog, cfg: Settings, more: nat)
    requires more <= |Chunks(b.rows, cfg.target)|
    ensures Nonempty(Chunks(b.rows, cfg.target)[..more])
    ensures more <= |NewLeaves(b, cfg)| ==>
              NewLeaves(b, cfg)[..more] == LeavesFor(Chunks(b.rows, cfg.target)[..more], b.nextId, b.revision + 1)
    ensures more > |NewLeaves(b, cfg)| ==> more > cfg.limit
  {
    NewLeafFacts(b, cfg);
    hide Chunks;
  }

  /** Consecutive conflict-free index calls. */
  ghost predicate IndexRun(run: seq<Backlog>, cfg: Settings) {
    2 <= cfg.m && run != [] && Ready(run[0], cfg) &&
    forall i, j :: 0 <= i < |run| - 1 && j == i + 1 ==> IndexCall(run[i], cfg, run[j])
  }

  lemma NothingCommitted(b: Backlog, cfg: Settings, families: Families, titled: map<Id, Node>, b2: Backlog)
    requires 2 <= cfg.m && Commits(b, cfg, families, 0, titled, b2)
    ensures b2 == b
  {}

  /** Leaves plus rows never grow, and a backlog shrinks with every call. */
  lemma {:induction false} RunProgress(run: seq<Backlog>, cfg: Settings, k: nat)
    requires IndexRun(run, cfg) && k < |run|
    requires cfg.limit > Height(|run[0].forest.leaves| + |run[0].rows|, cfg.m)
    ensures Ready(run[k], cfg)
    ensures |run[k].forest.leaves| + |run[k].rows| <= |run[0].forest.leaves| + |run[0].rows|
    ensures |run[k].rows| + k <= |run[0].rows| || run[k].rows == []
  {
    hide Ready, Commits, Height;
    if k > 0 {
      RunProgress(run, cfg, k - 1);
      var b, b2 := run[k - 1], run[k];
      assert IndexCall(b, cfg, b2);
      var families, count, titled :| Commits(b, cfg, families, count, titled, b2);
      if count == 0 { assert b2 == b by { NothingCommitted(b, cfg, families, titled, b2); } }
      if b.rows != [] {
        HeightMonotone(|b.forest.leaves| + 1, |run[0].forest.leaves| + |run[0].rows|, cfg.m);
        CallCommitsSome(b, cfg, families, count, titled, b2);
      }
      if count > 0 {
        CommitKeepsReady(b, cfg, families, count, titled, b2);
      }
    }
  }

  /** Enough conflict-free calls, at most one per pending message, index everything. */
  lemma BacklogDrains(run: seq<Backlog>, cfg: Settings)
    requires IndexRun(run, cfg) && |run| > |run[0].rows|
    requires cfg.limit > Height(|run[0].forest.leaves| + |run[0].rows|, cfg.m)
    ensures run[|run|-1].rows == []
  {
    RunProgress(run, cfg, |run| - 1);
  }

  // ---------------------------------------------------------------- what published nodes keep

  /** Nodes of both tables say the same in both, and a node the second table adds has an identifier from `base` on. */
  ghost predicate ContentKept(before: map<Id, Node>, after: map<Id, Node>, base: Id) {
    forall id :: id in after ==> if id in before then after[id].Content() == before[id].Content() else base <= id
  }

  /** The plan alters no published node, and what it adds is a new leaf or a requested parent. */
  lemma PlanIsConservative(s: Source, newer: seq<Node>, d: Draft, base: Id)
    requires LeavesKept(s.leaves, d.nodes) && ParentsKept(s, d.nodes) && LeavesAgree(s)
    requires (forall id :: id in s.before ==> id < base) && base <= s.base
    requires forall i :: 0 <= i < |newer| ==> base <= newer[i].id
    requires forall id :: id in s.leaves && id !in s.before ==> base <= id
    requires forall i :: 0 <= i < |d.requests| ==> s.base <= d.requests[i].parent
    ensures ContentKept(s.before, d.nodes, base)
    ensures forall id :: id in s.before ==> LeftAlone(newer, d.requests, id)
  {
    forall id | id in d.nodes
      ensures if id in s.before then d.nodes[id].Content() == s.before[id].Content() else base <= id {
      if id in s.leaves {
        assert d.nodes[id].Content() == s.leaves[id].Content();
      }
    }
  }

  lemma TitlingKeepsContent(before: map<Id, Node>, nodes: map<Id, Node>, titled: map<Id, Node>, newer: seq<Node>,
                            requests: seq<Request>, base: Id)
    requires ContentKept(before, nodes, base) && titled.Keys == nodes.Keys && OthersKept(nodes, newer, requests, titled)
    requires forall id :: id in before ==> LeftAlone(newer, requests, id)
    ensures ContentKept(before, titled, base)
  {
    hide LeftAlone;
  }

  lemma RequestsAreNew(base: Id, d: Draft)
    requires Requested(base, d)
    ensures forall i :: 0 <= i < |d.requests| ==> base <= d.requests[i].parent
  {
    forall i | 0 <= i < |d.requests| ensures base <= d.requests[i].parent {
      assert Asks(base, d, i);
    }
  }

  /**
   * A call keeps what the published tree says: a node that is still in the tree has its old title,
   * summary, range and revision, and any other node has an identifier never used before.
   */
  lemma CommitKeepsContent(b: Backlog, cfg: Settings, families: Families, count: nat, titled: map<Id, Node>,
                           b2: Backlog)
    requires Ready(b, cfg) && count > 0 && Commits(b, cfg, families, count, titled, b2)
    ensures ContentKept(b.forest.nodes, b2.forest.nodes, b.nextId) && b.nextId <= b2.nextId
  {
    hide *;
    ReadyFanout(b, cfg);
    ReadyParts(b, cfg);
    CommitParts(b, cfg, families, count, titled, b2);
    CommitIds(b, cfg, families, count, titled, b2);
    var leaves, newer := CommittedLeaves(b, cfg, count), NewLeaves(b, cfg)[..count];
    var s := CommitSource(b, cfg, families, count);
    var d := Plan(leaves, families, cfg.m, b.revision + 1, PlanId(b, cfg)).draft;
    PlanKeepsContent(s, leaves, cfg.m, b.revision + 1, PlanId(b, cfg));
    PlanRequestsChildrenFirst(s, leaves, cfg.m, b.revision + 1, PlanId(b, cfg));
    RequestsAreNew(PlanId(b, cfg), d);
    PlanIsConservative(s, newer, d, b.nextId);
    RetitledKeys(d.nodes, titled);
    TitlingKeepsContent(b.forest.nodes, d.nodes, titled, newer, d.requests, b.nextId);
  }

  /** The planner's input for a committing call, and where its identifiers come from. */
  lemma CommitSource(b: Backlog, cfg: Settings, families: Families, count: nat) returns (s: Source)
    requires Ready(b, cfg) && count <= |NewLeaves(b, cfg)| && Mirrors(families, b.forest.nodes, b.forest.kids)
    ensures s.reusable == families && s.before == b.forest.nodes && s.base == PlanId(b, cfg) && b.nextId <= s.base
    ensures Input(s, CommittedLeaves(b, cfg, count), PlanId(b, cfg)) && LeavesAgree(s)
    ensures forall i :: 0 <= i < count ==> b.nextId <= NewLeaves(b, cfg)[i].id
    ensures forall id :: id in s.leaves && id !in s.before ==> b.nextId <= id
  {
    var newer := NewLeaves(b, cfg)[..count];
    CallInput(b, cfg, families, count);
    NewLeafFacts(b, cfg);
    s := SourceOf(b.forest, newer, families, PlanId(b, cfg));
    assert CommittedLeaves(b, cfg, count) == b.forest.leaves + newer;
    SettledParts(b.forest, cfg.m);
    forall i | 0 <= i < count ensures b.nextId <= NewLeaves(b, cfg)[i].id {}
    hide Ready, Settled, NewLeaves, Mirrors, AllKeep, Layered, Chronological, Later, CommittedLeaves;
    InputAgrees(s, b.forest.leaves + newer, PlanId(b, cfg));
    LeavesFrom(b.forest, newer, b.nextId);
  }

  lemma InputAgrees(s: Source, leaves: seq<Node>, nextId: Id)
    requires Input(s, leaves, nextId)
    ensures LeavesAgree(s)
  {}

  lemma LeavesFrom(f: Forest, newer: seq<Node>, base: Id)
    requires LeavesFiled(f.nodes, f.leaves) && forall i :: 0 <= i < |newer| ==> base <= newer[i].id
    ensures forall id :: id in Index(f.leaves + newer) && id !in f.nodes ==> base <= id
  {
    forall id | id in Index(f.leaves + newer) && id !in f.nodes ensures base <= id {
      var n :| n in f.leaves + newer && n.id == id;
      assert n in newer;
    }
  }

  lemma {:induction false} RunIsReady(run: seq<Backlog>, cfg: Settings, k: nat)
    requires IndexRun(run, cfg) && k < |run|
    ensures Ready(run[k], cfg)
  {
    hide Ready, Commits;
    if k > 0 {
      RunIsReady(run, cfg, k - 1);
      assert IndexCall(run[k - 1], cfg, run[k]);
      var families, count, titled :| Commits(run[k - 1], cfg, families, count, titled, run[k]);
      if count == 0 {
        NothingCommitted(run[k - 1], cfg, families, titled, run[k]);
      } else {
        CommitKeepsReady(run[k - 1], cfg, families, count, titled, run[k]);
      }
    }
  }

  lemma CallKeepsContent(b: Backlog, cfg: Settings, b2: Backlog)
    requires 2 <= cfg.m && Ready(b, cfg) && IndexCall(b, cfg, b2)
    ensures ContentKept(b.forest.nodes, b2.forest.nodes, b.nextId) && b.nextId <= b2.nextId
  {
    hide Ready, Commits, Node.Content;
    var families, count, titled :| Commits(b, cfg, families, count, titled, b2);
    if count == 0 {
      NothingCommitted(b, cfg, families, titled, b2);
    } else {
      CommitKeepsContent(b, cfg, families, count, titled, b2);
    }
  }

  /**
   * Over any number of calls, a node met in two of the trees says the same in both: a summary once
   * published is never asked for or altered again, for as long as its node is in the tree.
   */
  lemma {:induction false} SummariesSurvive(run: seq<Backlog>, cfg: Settings, i: nat, j: nat, id: Id)
    requires IndexRun(run, cfg) && i <= j < |run| && id in run[i].forest.nodes && id in run[j].forest.nodes
    ensures run[j].forest.nodes[id].Content() == run[i].forest.nodes[id].Content() && run[i].nextId <= run[j].nextId
    decreases j
  {
    hide *;
    if i < j {
      RunCall(run, cfg, j - 1);
      RunIsReady(run, cfg, i);
      ReadyParts(run[i], cfg);
      IdsAdvance(run, cfg, i, j - 1);
      RunIsReady(run, cfg, j - 1);
      CallKeepsContent(run[j - 1], cfg, run[j]);
      StillThere(run[j - 1].forest.nodes, run[j].forest.nodes, run[j - 1].nextId, id);
      SummariesSurvive(run, cfg, i, j - 1, id);
    }
  }

  lemma RunCall(run: seq<Backlog>, cfg: Settings, k: nat)
    requires IndexRun(run, cfg) && k < |run| - 1
    ensures 2 <= cfg.m && IndexCall(run[k], cfg, run[k + 1])
  {
    hide IndexCall, Ready;
  }

  /** A node with an old identifier was there before. */
  lemma StillThere(before: map<Id, Node>, after: map<Id, Node>, base: Id, id: Id)
    requires ContentKept(before, after, base) && id in after && id < base
    ensures id in before && after[id].Content() == before[id].Content()
  {}

  lemma {:induction false} IdsAdvance(run: seq<Backlog>, cfg: Settings, i: nat, j: nat)
    requires IndexRun(run, cfg) && i <= j < |run|
    ensures run[i].nextId <= run[j].nextId
    decreases j
  {
    hide *;
    if i < j {
      RunCall(run, cfg, j - 1);
      IdsAdvance(run, cfg, i, j - 1);
      RunIsReady(run, cfg, j - 1);
      CallKeepsContent(run[j - 1], cfg, run[j]);
    }
  }

  // ---------------------------------------------------------------- a call is always possible

  /** The child-list index of a published table. */
  ghost function FamiliesOf(f: Forest): Families
    requires AllKeep(f.nodes, f.kids)
  {
    OneParentEach(f);
    assert forall q :: q in f.kids ==> q in f.nodes by {
      forall q | q in f.kids ensures q in f.nodes { assert Keeps(f.nodes, f.kids, q); }
    }
    map q | q in f.kids :: f.kids[q] := f.nodes[q]
  }

  /** No two parents have the same child list. */
  lemma OneParentEach(f: Forest)
    requires AllKeep(f.nodes, f.kids)
    ensures forall p, q :: p in f.kids && q in f.kids && f.kids[p] == f.kids[q] ==> p == q
  {
    forall p, q | p in f.kids && q in f.kids && f.kids[p] == f.kids[q] ensures p == q {
      KeepsFirst(f.nodes, f.kids, p);
      KeepsFirst(f.nodes, f.kids, q);
    }
  }

  lemma FamiliesOfMirrors(f: Forest)
    requires AllKeep(f.nodes, f.kids) && Named(f.nodes)
    ensures Mirrors(FamiliesOf(f), f.nodes, f.kids)
  {
    var families := FamiliesOf(f);
    FamiliesAre(f);
    hide FamiliesOf;
    forall q | q in f.kids ensures q in f.nodes && f.nodes[q].id == q {
      assert Keeps(f.nodes, f.kids, q);
    }
    hide AllKeep, Named;
  }

  lemma FamiliesAre(f: Forest)
    requires AllKeep(f.nodes, f.kids)
    ensures forall q :: q in f.kids ==>
              q in f.nodes && f.kids[q] in FamiliesOf(f) && FamiliesOf(f)[f.kids[q]] == f.nodes[q]
    ensures forall g :: g in FamiliesOf(f) ==> exists q :: q in f.kids && f.kids[q] == g
  {
    OneParentEach(f);
    forall q | q in f.kids ensures q in f.nodes {
      assert Keeps(f.nodes, f.kids, q);
    }
    hide AllKeep;
  }

  /** Every count above `upto` takes more calls than the limit allows. */
  ghost predicate OverLimit(older: seq<Node>, newer: seq<Node>, families: Families, m: nat, revision: nat, nextId: Id,
                            limit: nat, upto: nat)
    requires 2 <= m
  {
    forall c :: upto < c <= |newer| ==> Calls(older, newer, c, families, m, revision, nextId) > limit
  }

  lemma {:induction false} SomeLargestFit(older: seq<Node>, newer: seq<Node>, families: Families, m: nat, revision: nat,
                                          nextId: Id, limit: nat, upto: nat)
    returns (count: nat)
    requires 2 <= m && upto <= |newer| && OverLimit(older, newer, families, m, revision, nextId, limit, upto)
    ensures LargestFit(older, newer, count, families, m, revision, nextId, limit)
    decreases upto
  {
    hide Calls;
    if upto == 0 || Calls(older, newer, upto, families, m, revision, nextId) <= limit {
      count := upto;
    } else {
      count := SomeLargestFit(older, newer, families, m, revision, nextId, limit, upto - 1);
    }
  }

  /** A table with some answer for every node that is due one. */
  ghost function SomeTitles(nodes: map<Id, Node>, newer: seq<Node>, requests: seq<Request>): map<Id, Node> {
    map id | id in nodes :: if LeftAlone(newer, requests, id) then nodes[id] else Titled(nodes[id], Answer("", ""))
  }

  lemma SomeTitlesFit(nodes: map<Id, Node>, newer: seq<Node>, requests: seq<Request>)
    ensures Retitled(nodes, SomeTitles(nodes, newer, requests))
    ensures OthersKept(nodes, newer, requests, SomeTitles(nodes, newer, requests))
  {
    hide LeftAlone;
  }

  /** From any sound backlog some index call is possible, and one above the height of the new plan commits something. */
  lemma CallExists(b: Backlog, cfg: Settings)
    returns (families: Families, count: nat, titled: map<Id, Node>, b2: Backlog)
    requires Ready(b, cfg)
    ensures 2 <= cfg.m && Commits(b, cfg, families, count, titled, b2)
    ensures b.rows != [] && cfg.limit > Height(|b.forest.leaves| + 1, cfg.m) ==> count > 0
  {
    hide *;
    ReadyFanout(b, cfg);
    ReadyParts(b, cfg);
    ReadyKeeps(b, cfg);
    FamiliesOfMirrors(b.forest);
    families := FamiliesOf(b.forest);
    NoneAbove(b.forest.leaves, NewLeaves(b, cfg), families, cfg.m, b.revision + 1, PlanId(b, cfg), cfg.limit);
    count := SomeLargestFit(b.forest.leaves, NewLeaves(b, cfg), families, cfg.m, b.revision + 1, PlanId(b, cfg),
                            cfg.limit, |NewLeaves(b, cfg)|);
    FitBounds(b, cfg, families, count);
    if count == 0 {
      titled, b2 := map[], b;
      NothingCommits(b, cfg, families, titled);
    } else {
      titled, b2 := SomeCommit(b, cfg, families, count);
    }
    if b.rows != [] && cfg.limit > Height(|b.forest.leaves| + 1, cfg.m) {
      CallCommitsSome(b, cfg, families, count, titled, b2);
    }
  }

  lemma ReadyKeeps(b: Backlog, cfg: Settings)
    requires Ready(b, cfg)
    ensures AllKeep(b.forest.nodes, b.forest.kids) && Named(b.forest.nodes)
  {
    SettledParts(b.forest, cfg.m);
  }

  lemma NoneAbove(older: seq<Node>, newer: seq<Node>, families: Families, m: nat, revision: nat, nextId: Id, limit: nat)
    requires 2 <= m
    ensures OverLimit(older, newer, families, m, revision, nextId, limit, |newer|)
  {}

  lemma FitBounds(b: Backlog, cfg: Settings, families: Families, count: nat)
    requires 2 <= cfg.m
    requires LargestFit(b.forest.leaves, NewLeaves(b, cfg), count, families, cfg.m, b.revision + 1, PlanId(b, cfg),
                        cfg.limit)
    ensures count <= |NewLeaves(b, cfg)|
  {
    hide NewLeaves, PlanId, Calls;
  }

  lemma NothingCommits(b: Backlog, cfg: Settings, families: Families, titled: map<Id, Node>)
    requires 2 <= cfg.m && Mirrors(families, b.forest.nodes, b.forest.kids)
    requires LargestFit(b.forest.leaves, NewLeaves(b, cfg), 0, families, cfg.m, b.revision + 1, PlanId(b, cfg),
                        cfg.limit)
    ensures Commits(b, cfg, families, 0, titled, b)
  {
    hide NewLeaves, PlanId, Calls, Mirrors;
  }

  lemma SomeCommit(b: Backlog, cfg: Settings, families: Families, count: nat)
    returns (titled: map<Id, Node>, b2: Backlog)
    requires Ready(b, cfg) && 2 <= cfg.m && Mirrors(families, b.forest.nodes, b.forest.kids)
             && 0 < count <= |NewLeaves(b, cfg)|
    requires LargestFit(b.forest.leaves, NewLeaves(b, cfg), count, families, cfg.m, b.revision + 1, PlanId(b, cfg),
                        cfg.limit)
    ensures Commits(b, cfg, families, count, titled, b2)
  {
    hide *;
    var leaves, newer := CommittedLeaves(b, cfg, count), NewLeaves(b, cfg)[..count];
    var plan := Plan(leaves, families, cfg.m, b.revision + 1, PlanId(b, cfg));
    titled := SomeTitles(plan.draft.nodes, newer, plan.draft.requests);
    SomeTitlesFit(plan.draft.nodes, newer, plan.draft.requests);
    var s := CallSource(b, cfg, families, count);
    PlanSettles(s, leaves, cfg.m, b.revision + 1, PlanId(b, cfg), titled);
    NewLeafFacts(b, cfg);
    b2 := Backlog(PublishPlan(plan, titled, leaves), Flatten(Chunks(b.rows, cfg.target)[count..]), plan.draft.nextId,
                  b.revision + 1);
    CommitWhole(b, cfg, families, count, titled, b2);
  }

  /** The parts of a committing call make one. */
  lemma CommitWhole(b: Backlog, cfg: Settings, families: Families, count: nat, titled: map<Id, Node>, b2: Backlog)
    requires 2 <= cfg.m && Mirrors(families, b.forest.nodes, b.forest.kids) && count > 0
    requires LargestFit(b.forest.leaves, NewLeaves(b, cfg), count, families, cfg.m, b.revision + 1, PlanId(b, cfg),
                        cfg.limit)
    requires count <= |NewLeaves(b, cfg)| <= |Chunks(b.rows, cfg.target)|
    requires var leaves := CommittedLeaves(b, cfg, count);
             var plan := Plan(leaves, families, cfg.m, b.revision + 1, PlanId(b, cfg));
             && Retitled(plan.draft.nodes, titled) && (forall n :: n in leaves ==> KeepsSpan(titled, n))
             && OthersKept(plan.draft.nodes, NewLeaves(b, cfg)[..count], plan.draft.requests, titled)
             && b2 == Backlog(PublishPlan(plan, titled, leaves), Flatten(Chunks(b.rows, cfg.target)[count..]),
                              plan.draft.nextId, b.revision + 1)
    ensures Commits(b, cfg, families, count, titled, b2)
  {
    hide Mirrors, Retitled, OthersKept, KeepsSpan, Flatten, Chunks, NewLeaves, Plan, PlanId, Calls, PublishPlan;
  }
}
