/**
 * One index() call up to publication (packages/python/src/cci/index.py): greedy chunking of the pending
 * rows, choosing how many chunks fit the provider-call limit, and titling the planned nodes.
 */
module Indexing {
  import opened Wrappers
  import opened Sequences
  import opened Hierarchy
  import opened HierarchyForest
  import opened HierarchyReuse
  import opened HierarchyReplan
  import opened HierarchyPlanner

  /** A pending message: its sequence number and its text projection, if it has one. */
  datatype Row = Row(seqNo: nat, text: Option<string>)

  function Size(row: Row): nat {
    if row.text.Some? then |row.text.value| else 0
  }

  function Total(rows: seq<Row>): nat {
    if rows == [] then 0 else Total(rows[..|rows|-1]) + Size(rows[|rows|-1])
  }

  function Flatten(chunks: seq<seq<Row>>): seq<Row> {
    if chunks == [] then [] else chunks[0] + Flatten(chunks[1..])
  }

  /** The chunks still to be closed when `current` is open and `rows` are to come. */
  function ChunkFrom(current: seq<Row>, rows: seq<Row>, target: nat): seq<seq<Row>>
    decreases |rows|
  {
    if rows == [] then (if current == [] then [] else [current])
    else if current != [] && Total(current) + Size(rows[0]) > target then
      [current] + ChunkFrom([rows[0]], rows[1..], target)
    else ChunkFrom(current + [rows[0]], rows[1..], target)
  }

  function Chunks(rows: seq<Row>, target: nat): seq<seq<Row>> {
    ChunkFrom([], rows, target)
  }

  ghost predicate Fits(chunk: seq<Row>, target: nat) {
    chunk != [] && (|chunk| == 1 || Total(chunk) <= target)
  }

  /** `chunk` could not have taken the first row of `next`. */
  ghost predicate Full(chunk: seq<Row>, next: seq<Row>, target: nat) {
    next != [] && Total(chunk) + Size(next[0]) > target
  }

  /** What a reader expects of greedy chunking. */
  ghost predicate Greedy(chunks: seq<seq<Row>>, target: nat) {
    && (forall i :: 0 <= i < |chunks| ==> Fits(chunks[i], target))
    && (forall i, j :: 0 <= i < |chunks| - 1 && j == i + 1 ==> Full(chunks[i], chunks[j], target))
  }

  lemma GreedyCons(chunk: seq<Row>, rest: seq<seq<Row>>, target: nat)
    requires Fits(chunk, target) && Greedy(rest, target) && (rest != [] ==> Full(chunk, rest[0], target))
    ensures Greedy([chunk] + rest, target) && Flatten([chunk] + rest) == chunk + Flatten(rest)
  {
    assert ([chunk] + rest)[1..] == rest;
  }

  lemma GreedyUncons(chunks: seq<seq<Row>>, target: nat)
    requires Greedy(chunks, target) && chunks != []
    ensures Fits(chunks[0], target) && Greedy(chunks[1..], target)
    ensures chunks[1..] != [] ==> Full(chunks[0], chunks[1..][0], target)
  {
    assert forall i :: 0 <= i < |chunks[1..]| ==> chunks[1..][i] == chunks[i+1];
  }

  lemma TotalSnoc(rows: seq<Row>, row: Row)
    ensures Total(rows + [row]) == Total(rows) + Size(row)
  {
    assert (rows + [row])[..|rows|] == rows;
  }

  lemma ChunkFromCases(current: seq<Row>, rows: seq<Row>, target: nat)
    ensures rows == [] ==> ChunkFrom(current, rows, target) == if current == [] then [] else [current] + []
    ensures rows != [] && current != [] && Total(current) + Size(rows[0]) > target ==>
              ChunkFrom(current, rows, target) == [current] + ChunkFrom([rows[0]], rows[1..], target)
    ensures rows != [] && !(current != [] && Total(current) + Size(rows[0]) > target) ==>
              ChunkFrom(current, rows, target) == ChunkFrom(current + [rows[0]], rows[1..], target)
  {}

  lemma {:induction false} ChunkFromIsGreedy(current: seq<Row>, rows: seq<Row>, target: nat)
    requires |current| <= 1 || Total(current) <= target
    ensures Flatten(ChunkFrom(current, rows, target)) == current + rows
    ensures Greedy(ChunkFrom(current, rows, target), target)
    ensures current != [] ==> StartsWith(ChunkFrom(current, rows, target), current[0])
    decreases |rows|
  {
    ChunkFromCases(current, rows, target);
    if rows != [] { TotalSnoc(current, rows[0]); }
    TotalNone();
    hide Greedy, Flatten, ChunkFrom, Total, Size;
    if rows == [] {
      NoChunks(target);
      if current != [] { GreedyCons(current, [], target); }
    } else {
      var row := rows[0];
      if current != [] && Total(current) + Size(row) > target {
        ChunkFromIsGreedy([row], rows[1..], target);
        GreedyCons(current, ChunkFrom([row], rows[1..], target), target);
        assert current + ([row] + rows[1..]) == current + rows;
      } else {
        ChunkFromIsGreedy(current + [row], rows[1..], target);
        assert current + [row] + rows[1..] == current + rows;
        assert (current + [row])[0] == if current != [] then current[0] else row;
      }
    }
  }

  ghost predicate StartsWith(chunks: seq<seq<Row>>, row: Row) {
    chunks != [] && chunks[0] != [] && chunks[0][0] == row
  }

  lemma TotalNone()
    ensures Total([]) == 0
  {}

  lemma NoChunks(target: nat)
    ensures Greedy([], target) && Flatten([]) == []
  {}

  /** Chunks concatenate back to the rows; each fits the target or is one row; none could be longer. */
  lemma ChunksAreGreedy(rows: seq<Row>, target: nat)
    ensures Flatten(Chunks(rows, target)) == rows && Greedy(Chunks(rows, target), target)
    ensures rows != [] ==> Chunks(rows, target) != []
  {
    ChunkFromIsGreedy([], rows, target);
  }

  /** The texts of the rows, one after another. */
  function Written(rows: seq<Row>): string {
    if rows == [] then ""
    else
      var last := rows[|rows|-1];
      Written(rows[..|rows|-1]) + (if last.text.Some? then last.text.value else "")
  }

  /** What chunks are measured by is the length of their texts. */
  lemma {:induction false} TotalIsLength(rows: seq<Row>)
    ensures Total(rows) == |Written(rows)|
  {
    if rows != [] { TotalIsLength(rows[..|rows|-1]); }
  }

  /**
   * Every chunk is a single row or its texts are within the target, and no chunk could have taken the row that
   * begins the next.
   */
  lemma ChunksFillTheTarget(rows: seq<Row>, target: nat, i: nat)
    requires i < |Chunks(rows, target)|
    ensures var chunks := Chunks(rows, target);
            && chunks[i] != [] && (|chunks[i]| == 1 || |Written(chunks[i])| <= target)
            && (i + 1 < |chunks| ==> chunks[i+1] != [] && |Written(chunks[i] + [chunks[i+1][0]])| > target)
  {
    ChunksAreGreedy(rows, target);
    var chunks := Chunks(rows, target);
    hide Chunks;
    assert Fits(chunks[i], target);
    TotalIsLength(chunks[i]);
    if i + 1 < |chunks| {
      var j := i + 1;
      assert Full(chunks[i], chunks[j], target);
      TotalIsLength(chunks[i] + [chunks[j][0]]);
    }
  }

  lemma {:induction false} TotalMonotone(a: seq<Row>, b: seq<Row>)
    ensures Total(a + b) >= Total(a)
  {
    if b == [] {
      assert a + b == a;
    } else {
      var init := b[..|b|-1];
      assert (a + b)[..|a+b|-1] == a + init;
      TotalMonotone(a, init);
    }
  }

  /** The first chunk of a greedy division is the longest prefix of the rows that fits. */
  lemma FirstChunkIsLongest(a: seq<seq<Row>>, target: nat, n: nat)
    requires Greedy(a, target) && a != [] && n <= |Flatten(a)| && n != |a[0]|
    ensures |a[0]| <= |Flatten(a)| && Flatten(a)[..|a[0]|] == a[0] && Fits(a[0], target)
    ensures |a[0]| < n ==> !Fits(Flatten(a)[..n], target)
  {
    GreedyUncons(a, target);
    var rows, k := Flatten(a), |a[0]|;
    assert rows == a[0] + Flatten(a[1..]);
    if k < n {
      EmptyFlatten(a[1..], target);
      GreedyUncons(a[1..], target);
      var next := a[1..][0][0];
      assert Flatten(a[1..]) == a[1..][0] + Flatten(a[1..][1..]);
      assert next == Flatten(a[1..])[0] == rows[k];
      hide Flatten, Greedy, Size, Total;
      TotalSnoc(a[0], next);
      assert rows[..n] == (a[0] + [next]) + rows[k+1..n];
      TotalMonotone(a[0] + [next], rows[k+1..n]);
    }
  }

  lemma EmptyFlatten(a: seq<seq<Row>>, target: nat)
    requires Greedy(a, target)
    ensures Flatten(a) == [] <==> a == []
  {
    if a != [] { GreedyUncons(a, target); }
  }

  /** So greedy chunking is the only division of the rows with these properties. */
  lemma {:induction false} GreedyIsUnique(a: seq<seq<Row>>, b: seq<seq<Row>>, target: nat)
    requires Greedy(a, target) && Greedy(b, target) && Flatten(a) == Flatten(b)
    ensures a == b
  {
    EmptyFlatten(a, target);
    EmptyFlatten(b, target);
    if a != [] {
      SameFirstChunk(a, b, target);
      GreedyUncons(a, target);
      GreedyUncons(b, target);
      GreedyIsUnique(a[1..], b[1..], target);
      assert a == [a[0]] + a[1..] && b == [b[0]] + b[1..];
    }
  }

  lemma SameFirstChunk(a: seq<seq<Row>>, b: seq<seq<Row>>, target: nat)
    requires Greedy(a, target) && Greedy(b, target) && Flatten(a) == Flatten(b) && a != [] && b != []
    ensures a[0] == b[0] && Flatten(a[1..]) == Flatten(b[1..])
  {
    var rows := Flatten(a);
    assert |a[0]| <= |rows| && |b[0]| <= |rows|;
    assert a[0] == rows[..|a[0]|] && b[0] == rows[..|b[0]|];
    if |a[0]| != |b[0]| {
      FirstChunkIsLongest(a, target, |b[0]|);
      FirstChunkIsLongest(b, target, |a[0]|);
    }
    assert Flatten(a[1..]) == rows[|a[0]|..] && Flatten(b[1..]) == rows[|b[0]|..];
  }

  method ChunkMessages(rows: seq<Row>, target: nat) returns (chunks: seq<seq<Row>>)
    ensures chunks == Chunks(rows, target)
  {
    chunks := [];
    var current: seq<Row> := [];
    var currentLen := 0;
    assert rows[0..] == rows;
    for i := 0 to |rows|
      invariant currentLen == Total(current)
      invariant Chunks(rows, target) == chunks + ChunkFrom(current, rows[i..], target)
    {
      var row := rows[i];
      assert rows[i..][1..] == rows[i+1..];
      if current != [] && currentLen + Size(row) > target {
        assert chunks + ([current] + ChunkFrom([row], rows[i+1..], target)) ==
               (chunks + [current]) + ChunkFrom([row], rows[i+1..], target);
        chunks := chunks + [current];
        current := [];
        currentLen := 0;
      }
      TotalSnoc(current, row);
      current := current + [row];
      currentLen := currentLen + Size(row);
    }
    if current != [] {
      chunks := chunks + [current];
    }
  }

  // ---------------------------------------------------------------- how many chunks to commit

  /** Leaf `i` covers chunk `i`; identifiers are drawn in order from `nextId`. */
  function LeavesFor(chunks: seq<seq<Row>>, nextId: Id, revision: nat): (r: seq<Node>)
    requires forall i :: 0 <= i < |chunks| ==> chunks[i] != []
  {
    seq(|chunks|, i requires 0 <= i < |chunks| =>
      Node(nextId + i, None, i, chunks[i][0].seqNo, chunks[i][|chunks[i]|-1].seqNo, None, None, revision))
  }

  /** Provider calls needed to commit the first `count` new leaves. */
  function Calls(older: seq<Node>, newer: seq<Node>, count: nat, families: Families, m: nat, revision: nat,
                 nextId: Id): nat
    requires 2 <= m && count <= |newer|
  {
    count + |Plan(older + newer[..count], families, m, revision, nextId).draft.requests|
  }

  /** `count` is the largest number of new leaves within the limit, or zero when none fits. */
  ghost predicate LargestFit(older: seq<Node>, newer: seq<Node>, count: nat, families: Families, m: nat, revision: nat,
                             nextId: Id, limit: nat)
    requires 2 <= m
  {
    && count <= |newer|
    && (count > 0 ==> Calls(older, newer, count, families, m, revision, nextId) <= limit)
    && (forall c :: count < c <= |newer| ==> Calls(older, newer, c, families, m, revision, nextId) > limit)
  }

  lemma FamiliesUnique(previous: seq<Node>, a: Families, b: Families)
    requires IsFamilies(previous, a) && IsFamilies(previous, b)
    ensures a == b
  {
    forall g | g in a ensures g in b && b[g] == a[g] {
      assert a[g] in previous;
    }
    forall g | g in b ensures g in a {
      assert b[g] in previous;
    }
  }

  lemma PrefixDistinct(older: seq<Node>, newer: seq<Node>, count: nat)
    requires NoDup(Ids(older + newer)) && count <= |newer|
    ensures NoDup(Ids(older + newer[..count]))
  {
    var a, b := Ids(older + newer[..count]), Ids(older + newer);
    assert a == b[..|older| + count];
  }

  /** The count loop: plan, and drop the last new leaf until the plan fits. */
  method ChooseCount(older: seq<Node>, newer: seq<Node>, previous: seq<Node>, m: nat, revision: nat, nextId: Id,
                     limit: nat)
    returns (count: nat, plan: Climbed, ghost families: Families)
    requires 2 <= m && NoDup(Ids(older + newer)) && NoDup(Ids(previous))
    ensures IsFamilies(previous, families)
    ensures LargestFit(older, newer, count, families, m, revision, nextId, limit)
    ensures count > 0 ==> plan == Plan(older + newer[..count], families, m, revision, nextId)
    ensures count <= |newer| && (count > 0 ==> count + |plan.draft.requests| <= limit)
  {
    hide NoDup, Ids, Plan, IsFamilies;
    count := |newer|;
    plan := Climbed(Draft(map[], map[], [], nextId), []);
    families := BuildFamilies(previous);
    while count > 0
      invariant count <= |newer|
      invariant forall c :: count < c <= |newer| ==> Calls(older, newer, c, families, m, revision, nextId) > limit
    {
      PrefixDistinct(older, newer, count);
      var r, found := PlanHierarchy(older + newer[..count], previous, m, revision, nextId);
      FamiliesUnique(previous, families, found);
      plan := r.value;
      if count + |plan.draft.requests| <= limit {
        break;
      }
      count := count - 1;
    }
  }

  // ---------------------------------------------------------------- titling

  datatype Answer = Answer(title: string, summary: string)

  function Titled(n: Node, a: Answer): Node {
    n.(title := Some(a.title), summary := Some(a.summary))
  }

  function Heading(n: Node): string {
    (if n.title.Some? then n.title.value else "") + "\n" + (if n.summary.Some? then n.summary.value else "")
  }

  ghost predicate Done(nodes: map<Id, Node>, id: Id) {
    id in nodes && nodes[id].title.Some? && nodes[id].summary.Some?
  }

  ghost predicate AllTitled(nodes: map<Id, Node>) {
    forall id :: id in nodes ==> Done(nodes, id)
  }

  /** No node has lost its title. */
  ghost predicate Progress(before: map<Id, Node>, after: map<Id, Node>) {
    forall id :: Done(before, id) ==> Done(after, id)
  }

  /** What the summary loop asks about: each child's identifier, title and summary. */
  function ChildTexts(nodes: map<Id, Node>, children: seq<Id>): seq<(Id, string)>
    requires Covers(nodes, children)
  {
    seq(|children|, j requires 0 <= j < |children| => (children[j], Heading(nodes[children[j]])))
  }

  /** `id` is titled already, a new leaf to title, or a new parent to summarise. */
  ghost predicate DueTitle(nodes: map<Id, Node>, newer: seq<Node>, requests: seq<Request>, id: Id) {
    || Done(nodes, id)
    || (exists n :: n in newer && n.id == id)
    || AskedFor(requests, id)
  }

  ghost predicate TitlesDue(nodes: map<Id, Node>, newer: seq<Node>, requests: seq<Request>) {
    forall id :: id in nodes ==> DueTitle(nodes, newer, requests, id)
  }

  ghost predicate ChildrenFirst(nodes: map<Id, Node>, requests: seq<Request>) {
    && (forall i :: 0 <= i < |requests| ==> requests[i].parent in nodes && Covers(nodes, requests[i].children))
    && (forall i, j :: 0 <= i <= j < |requests| ==> requests[j].parent !in requests[i].children)
  }

  /** Nothing is titled twice: new leaves and requested parents are all different nodes. */
  ghost predicate OnceEach(newer: seq<Node>, requests: seq<Request>) {
    && NoDup(Ids(newer))
    && (forall i, j :: 0 <= i < j < |requests| ==> requests[i].parent != requests[j].parent)
    && (forall i, j :: 0 <= i < |newer| && 0 <= j < |requests| ==> newer[i].id != requests[j].parent)
  }

  /** `id` is none of the new leaves and none of the requested parents. */
  ghost predicate LeftAlone(newer: seq<Node>, requests: seq<Request>, id: Id) {
    (forall i :: 0 <= i < |newer| ==> newer[i].id != id)
      && (forall i :: 0 <= i < |requests| ==> requests[i].parent != id)
  }

  /** Nodes that are neither new leaves nor requested parents are exactly as they were. */
  ghost predicate OthersKept(nodes: map<Id, Node>, newer: seq<Node>, requests: seq<Request>, resolved: map<Id, Node>) {
    forall id :: id in nodes && LeftAlone(newer, requests, id) ==> id in resolved && resolved[id] == nodes[id]
  }

  /** The leaf carries what the model says about its rows. */
  ghost predicate LeafAnswered(nodes: map<Id, Node>, id: Id, group: seq<Row>, readRows: seq<Row> -> Answer,
                               resolved: map<Id, Node>)
  {
    id in nodes && id in resolved && resolved[id] == Titled(nodes[id], readRows(group))
  }

  /** The parent carries what the model says about its children as they now are. */
  ghost predicate ParentAnswered(nodes: map<Id, Node>, r: Request, readChildren: seq<(Id, string)> -> Answer,
                                 resolved: map<Id, Node>)
  {
    && r.parent in nodes && r.parent in resolved && Covers(resolved, r.children)
    && resolved[r.parent] == Titled(nodes[r.parent], readChildren(ChildTexts(resolved, r.children)))
  }

  ghost predicate LeavesAnswered(nodes: map<Id, Node>, newer: seq<Node>, groups: seq<seq<Row>>,
                                 readRows: seq<Row> -> Answer, resolved: map<Id, Node>)
  {
    |groups| == |newer| && forall i :: 0 <= i < |newer| ==>
        LeafAnswered(nodes, newer[i].id, groups[i], readRows, resolved)
  }

  ghost predicate ParentsAnswered(nodes: map<Id, Node>, requests: seq<Request>,
                                  readChildren: seq<(Id, string)> -> Answer, resolved: map<Id, Node>)
  {
    forall i :: 0 <= i < |requests| ==> ParentAnswered(nodes, requests[i], readChildren, resolved)
  }

  /**
   * The two titling loops, with the model as a function of what it is shown.  When a parent's turn
   * comes, all of its children already carry a title and a summary; at the end every node does.  Each
   * new leaf carries the answer for its rows, each new parent the answer for its children's final
   * titles and summaries, and every other node is untouched.
   */
  method TitleNodes(nodes: map<Id, Node>, newer: seq<Node>, groups: seq<seq<Row>>, requests: seq<Request>,
                    readRows: seq<Row> -> Answer, readChildren: seq<(Id, string)> -> Answer)
    returns (resolved: map<Id, Node>)
    requires |groups| == |newer| && (forall i :: 0 <= i < |newer| ==> newer[i].id in nodes)
    requires TitlesDue(nodes, newer, requests) && ChildrenFirst(nodes, requests) && OnceEach(newer, requests)
    ensures AllTitled(resolved) && Retitled(nodes, resolved) && OthersKept(nodes, newer, requests, resolved)
    ensures LeavesAnswered(nodes, newer, groups, readRows, resolved)
    ensures ParentsAnswered(nodes, requests, readChildren, resolved)
  {
    OnlyLeaves(newer, requests);
    hide *;
    resolved := TitleLeaves(nodes, newer, groups, readRows);
    resolved := TitleParents(nodes, newer, groups, requests, readRows, readChildren, resolved);
    AnsweredDone(nodes, newer, groups, readRows, requests, readChildren, resolved);
    EverythingTitled(nodes, newer, requests, resolved);
  }

  /** The first loop: one answer for each new leaf. */
  method TitleLeaves(nodes: map<Id, Node>, newer: seq<Node>, groups: seq<seq<Row>>, readRows: seq<Row> -> Answer)
    returns (resolved: map<Id, Node>)
    requires |groups| == |newer| && (forall i :: 0 <= i < |newer| ==> newer[i].id in nodes) && NoDup(Ids(newer))
    ensures Retitled(nodes, resolved) && Progress(nodes, resolved) && OthersKept(nodes, newer, [], resolved)
    ensures LeavesAnswered(nodes, newer, groups, readRows, resolved)
  {
    resolved := nodes;
    TitlingStarts(nodes, newer, groups, readRows);
    hide *;
    for i := 0 to |newer|
      invariant resolved.Keys == nodes.Keys && Retitled(nodes, resolved) && Progress(nodes, resolved)
      invariant OthersKept(nodes, newer[..i], [], resolved)
      invariant LeavesAnswered(nodes, newer[..i], groups[..i], readRows, resolved)
    {
      LeafStep(nodes, newer, groups, readRows, resolved, i);
      resolved := resolved[newer[i].id := Titled(resolved[newer[i].id], readRows(groups[i]))];
    }
    assert newer[..|newer|] == newer && groups[..|groups|] == groups;
  }

  /** The second loop: one answer for each requested parent, from its children's titles and summaries. */
  method TitleParents(nodes: map<Id, Node>, newer: seq<Node>, groups: seq<seq<Row>>, requests: seq<Request>,
                      readRows: seq<Row> -> Answer, readChildren: seq<(Id, string)> -> Answer, leafed: map<Id, Node>)
    returns (resolved: map<Id, Node>)
    requires TitlesDue(nodes, newer, requests) && ChildrenFirst(nodes, requests) && OnceEach(newer, requests)
    requires Retitled(nodes, leafed) && Progress(nodes, leafed) && OthersKept(nodes, newer, [], leafed)
    requires LeavesAnswered(nodes, newer, groups, readRows, leafed)
    ensures Retitled(nodes, resolved) && Progress(nodes, resolved) && OthersKept(nodes, newer, requests, resolved)
    ensures LeavesAnswered(nodes, newer, groups, readRows, resolved)
    ensures ParentsAnswered(nodes, requests, readChildren, resolved)
  {
    resolved := leafed;
    NoneAnswered(requests, readChildren, nodes, resolved);
    hide *;
    for i := 0 to |requests|
      invariant Retitled(nodes, resolved) && Progress(nodes, resolved)
      invariant OthersKept(nodes, newer, requests[..i], resolved)
      invariant LeavesAnswered(nodes, newer, groups, readRows, resolved)
      invariant ParentsAnswered(nodes, requests[..i], readChildren, resolved)
    {
      ParentTurn(nodes, newer, groups, readRows, requests, readChildren, resolved, i);
      var answer := readChildren(ChildTexts(resolved, requests[i].children));
      resolved := resolved[requests[i].parent := Titled(resolved[requests[i].parent], answer)];
    }
    assert requests[..|requests|] == requests;
  }

  lemma TitlingStarts(nodes: map<Id, Node>, newer: seq<Node>, groups: seq<seq<Row>>, readRows: seq<Row> -> Answer)
    requires |newer| == |groups|
    ensures Retitled(nodes, nodes) && Progress(nodes, nodes) && OthersKept(nodes, newer[..0], [], nodes)
    ensures LeavesAnswered(nodes, newer[..0], groups[..0], readRows, nodes)
  {}

  lemma NoneAnswered(requests: seq<Request>, readChildren: seq<(Id, string)> -> Answer, nodes: map<Id, Node>,
                     resolved: map<Id, Node>)
    ensures requests[..0] == [] && ParentsAnswered(nodes, requests[..0], readChildren, resolved)
  {}

  lemma OnlyLeaves(newer: seq<Node>, requests: seq<Request>)
    requires OnceEach(newer, requests)
    ensures NoDup(Ids(newer))
  {}

  lemma EverythingTitled(nodes: map<Id, Node>, newer: seq<Node>, requests: seq<Request>, resolved: map<Id, Node>)
    requires TitlesDue(nodes, newer, requests) && Retitled(nodes, resolved) && Progress(nodes, resolved)
    requires forall k :: 0 <= k < |newer| ==> Done(resolved, newer[k].id)
    requires forall k :: 0 <= k < |requests| ==> Done(resolved, requests[k].parent)
    ensures AllTitled(resolved)
  {
    hide Done;
    forall id | id in resolved ensures Done(resolved, id) {
      assert DueTitle(nodes, newer, requests, id);
    }
  }

  /** Titling leaf `i` answers for it and touches nothing else. */
  lemma LeafStep(nodes: map<Id, Node>, newer: seq<Node>, groups: seq<seq<Row>>, readRows: seq<Row> -> Answer,
                 resolved: map<Id, Node>, i: nat)
    requires i < |newer| == |groups| && newer[i].id in nodes && NoDup(Ids(newer))
    requires Retitled(nodes, resolved) && Progress(nodes, resolved) && OthersKept(nodes, newer[..i], [], resolved)
    requires LeavesAnswered(nodes, newer[..i], groups[..i], readRows, resolved)
    ensures var id := newer[i].id;
            var next := resolved[id := Titled(resolved[id], readRows(groups[i]))];
            && next.Keys == nodes.Keys && Retitled(nodes, next) && Progress(nodes, next)
            && OthersKept(nodes, newer[..i+1], [], next)
            && LeavesAnswered(nodes, newer[..i+1], groups[..i+1], readRows, next)
  {
    var id := newer[i].id;
    OneTitled(nodes, resolved, id, readRows(groups[i]));
    var next := resolved[id := Titled(resolved[id], readRows(groups[i]))];
    hide Retitled, Progress, Titled;
    forall k | 0 <= k < i ensures newer[k].id != id {
      assert Ids(newer)[k] != Ids(newer)[i];
    }
    assert LeftAlone(newer[..i], [], id);
    forall x | x in nodes && LeftAlone(newer[..i+1], [], x) ensures x in next && next[x] == nodes[x] {
      LeafAlone(newer, i, x);
    }
    var more, moreGroups := newer[..i+1], groups[..i+1];
    forall k | 0 <= k < i + 1 ensures LeafAnswered(nodes, more[k].id, moreGroups[k], readRows, next) {
      if k < i { assert LeafAnswered(nodes, newer[..i][k].id, groups[..i][k], readRows, resolved); }
    }
  }

  /** Parent `i` in its turn: its children are ready, and titling it answers for it. */
  lemma ParentTurn(nodes: map<Id, Node>, newer: seq<Node>, groups: seq<seq<Row>>, readRows: seq<Row> -> Answer,
                   requests: seq<Request>, readChildren: seq<(Id, string)> -> Answer, resolved: map<Id, Node>, i: nat)
    requires TitlesDue(nodes, newer, requests) && ChildrenFirst(nodes, requests) && OnceEach(newer, requests)
             && i < |requests|
    requires Retitled(nodes, resolved) && Progress(nodes, resolved) && OthersKept(nodes, newer, requests[..i], resolved)
    requires LeavesAnswered(nodes, newer, groups, readRows, resolved)
    requires ParentsAnswered(nodes, requests[..i], readChildren, resolved)
    ensures Covers(resolved, requests[i].children) && requests[i].parent in resolved
    ensures var p := requests[i].parent;
            var next := resolved[p := Titled(resolved[p], readChildren(ChildTexts(resolved, requests[i].children)))];
            && Retitled(nodes, next) && Progress(nodes, next) && OthersKept(nodes, newer, requests[..i+1], next)
            && LeavesAnswered(nodes, newer, groups, readRows, next)
            && ParentsAnswered(nodes, requests[..i+1], readChildren, next)
  {
    hide *;
    AnsweredDone(nodes, newer, groups, readRows, requests[..i], readChildren, resolved);
    TurnsSoFar(requests, i, resolved);
    ChildrenReady(nodes, resolved, newer, requests, i);
    ParentStep(nodes, newer, groups, readRows, requests, readChildren, resolved, i);
  }

  lemma TurnsSoFar(requests: seq<Request>, i: nat, resolved: map<Id, Node>)
    requires i <= |requests| && forall k :: 0 <= k < |requests[..i]| ==> Done(resolved, requests[..i][k].parent)
    ensures forall k :: 0 <= k < i ==> Done(resolved, requests[k].parent)
  {
    hide Done;
    forall k | 0 <= k < i ensures Done(resolved, requests[k].parent) {
      assert requests[..i][k] == requests[k];
    }
  }

  /** Titling parent `i` answers for it, changes no child of an earlier request, and touches nothing else. */
  lemma ParentStep(nodes: map<Id, Node>, newer: seq<Node>, groups: seq<seq<Row>>, readRows: seq<Row> -> Answer,
                   requests: seq<Request>, readChildren: seq<(Id, string)> -> Answer, resolved: map<Id, Node>, i: nat)
    requires i < |requests| && ChildrenFirst(nodes, requests) && OnceEach(newer, requests)
    requires Covers(resolved, requests[i].children)
    requires Retitled(nodes, resolved) && Progress(nodes, resolved) && OthersKept(nodes, newer, requests[..i], resolved)
    requires LeavesAnswered(nodes, newer, groups, readRows, resolved)
    requires ParentsAnswered(nodes, requests[..i], readChildren, resolved)
    ensures var p := requests[i].parent;
            && p in resolved
            && var next := resolved[p := Titled(resolved[p], readChildren(ChildTexts(resolved, requests[i].children)))];
            && Retitled(nodes, next) && Progress(nodes, next) && OthersKept(nodes, newer, requests[..i+1], next)
            && LeavesAnswered(nodes, newer, groups, readRows, next)
            && ParentsAnswered(nodes, requests[..i+1], readChildren, next)
  {
    var p, answer := requests[i].parent, readChildren(ChildTexts(resolved, requests[i].children));
    RetitledKeys(nodes, resolved);
    OneTitled(nodes, resolved, p, answer);
    var next := resolved[p := Titled(resolved[p], answer)];
    ParentAlone(newer, requests, i);
    hide Retitled, Progress, Titled, OnceEach;
    assert resolved[p] == nodes[p];
    forall x | x in nodes && LeftAlone(newer, requests[..i+1], x) ensures x in next && next[x] == nodes[x] {
      RequestAlone(newer, requests, i, x);
    }
    forall k | 0 <= k < |newer| ensures LeafAnswered(nodes, newer[k].id, groups[k], readRows, next) {
      assert LeafAnswered(nodes, newer[k].id, groups[k], readRows, resolved);
    }
    var more := requests[..i+1];
    forall k | 0 <= k < i + 1 ensures ParentAnswered(nodes, more[k], readChildren, next) {
      SameTexts(resolved, p, next[p], requests[k].children);
      if k < i { assert ParentAnswered(nodes, requests[..i][k], readChildren, resolved); }
    }
  }

  lemma LeafAlone(newer: seq<Node>, i: nat, x: Id)
    requires i < |newer| && LeftAlone(newer[..i+1], [], x)
    ensures LeftAlone(newer[..i], [], x) && newer[i].id != x
  {
    var more := newer[..i+1];
    assert newer[..i] == more[..i] && more[i] == newer[i];
  }

  lemma RequestAlone(newer: seq<Node>, requests: seq<Request>, i: nat, x: Id)
    requires i < |requests| && LeftAlone(newer, requests[..i+1], x)
    ensures LeftAlone(newer, requests[..i], x) && requests[i].parent != x
  {
    var more := requests[..i+1];
    assert requests[..i] == more[..i] && more[i] == requests[i];
  }

  /** Parent `i` is no leaf, no earlier parent, and no child of a parent up to its turn. */
  lemma ParentAlone(newer: seq<Node>, requests: seq<Request>, i: nat)
    requires i < |requests| && OnceEach(newer, requests)
    ensures LeftAlone(newer, requests[..i], requests[i].parent)
  {
    forall k | 0 <= k < i ensures requests[..i][k].parent != requests[i].parent {
      assert requests[k].parent != requests[i].parent;
    }
  }

  lemma SameTexts(nodes: map<Id, Node>, p: Id, n: Node, children: seq<Id>)
    requires p !in children
    ensures Covers(nodes, children) ==>
              Covers(nodes[p := n], children) && ChildTexts(nodes[p := n], children) == ChildTexts(nodes, children)
  {
    if Covers(nodes, children) {
      forall j | 0 <= j < |children|
        ensures children[j] in nodes && children[j] != p { assert children[j] in children; }
    }
  }

  /** Whatever has been answered for has a title and a summary. */
  lemma AnsweredDone(nodes: map<Id, Node>, newer: seq<Node>, groups: seq<seq<Row>>, readRows: seq<Row> -> Answer,
                     requests: seq<Request>, readChildren: seq<(Id, string)> -> Answer, resolved: map<Id, Node>)
    requires LeavesAnswered(nodes, newer, groups, readRows, resolved)
    requires ParentsAnswered(nodes, requests, readChildren, resolved)
    ensures forall k :: 0 <= k < |newer| ==> Done(resolved, newer[k].id)
    ensures forall k :: 0 <= k < |requests| ==> Done(resolved, requests[k].parent)
  {
    forall k | 0 <= k < |newer| ensures Done(resolved, newer[k].id) {
      assert LeafAnswered(nodes, newer[k].id, groups[k], readRows, resolved);
    }
    forall k | 0 <= k < |requests| ensures Done(resolved, requests[k].parent) {
      assert ParentAnswered(nodes, requests[k], readChildren, resolved);
    }
  }

  /** When request `i` is served, everything it shows the model has a title and a summary. */
  lemma ChildrenReady(nodes: map<Id, Node>, resolved: map<Id, Node>, newer: seq<Node>, requests: seq<Request>, i: nat)
    requires i < |requests| && TitlesDue(nodes, newer, requests) && ChildrenFirst(nodes, requests)
    requires Progress(nodes, resolved)
    requires forall k :: 0 <= k < |newer| ==> Done(resolved, newer[k].id)
    requires forall k :: 0 <= k < i ==> Done(resolved, requests[k].parent)
    ensures Covers(resolved, requests[i].children)
    ensures forall c :: c in requests[i].children ==> Done(resolved, c)
  {
    forall c | c in requests[i].children ensures Done(resolved, c) {
      assert c in nodes;
      assert DueTitle(nodes, newer, requests, c);
      if AskedFor(requests, c) {
        var k :| 0 <= k < |requests| && requests[k].parent == c;
        assert k < i;
      }
    }
  }

  lemma OneTitled(nodes: map<Id, Node>, resolved: map<Id, Node>, id: Id, a: Answer)
    requires Retitled(nodes, resolved) && Progress(nodes, resolved) && id in resolved
    ensures var next := resolved[id := Titled(resolved[id], a)];
            Retitled(nodes, next) && Progress(nodes, next)
  {}
}
