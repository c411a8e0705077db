/** Bounded navigation of the summary tree (packages/python/src/cci/tree_retrieval.py). */
module Navigation {
  import opened Wrappers
  import opened Sequences
  import opened Records
  import opened Hierarchy
  import HierarchyForest
  import opened HierarchyReplan
  import opened Rendering
  import Transactions
  import Relevance
  import Retrieval
  import opened ChunkTexts
  import StoreInvariants

  datatype Reply = Unavailable | Malformed | Chosen(ids: seq<Id>)

  /** What the request meets, by the number of loop rounds so far. */
  datatype World = World(late: nat -> bool, changed: nat -> bool, changedAfter: nat -> bool,
                         reply: (nat, seq<EvidenceBlock>) -> Reply)

  datatype Code = RevisionChanged | RequiresRebuild | ContextExhausted | ProviderUnavailable | InvalidSelection
                | NavigationLimited

  datatype Outcome = Outcome(candidates: seq<Retrieval.Candidate>, selected: seq<Id>, diagnostic: Option<Code>,
                             limited: bool)

  function Fallback(code: Code): Outcome {
    Outcome([], [], Some(code), true)
  }

  // ---------------------------------------------------------------- the tree as it is read

  function Children(f: Forest, parent: Option<Id>): seq<Id> {
    if parent.None? then f.roots else if parent.value in f.kids then f.kids[parent.value] else []
  }

  predicate IsLeaf(f: Forest, id: Id) {
    id in Ids(f.leaves)
  }

  /** A tree whose nodes are leaves or have one to `most` children, all of them nodes. */
  ghost predicate Tidy(f: Forest, most: nat) {
    && |f.roots| <= most && HierarchyForest.Detached(f.nodes, f.roots)
    && (forall p :: p in f.kids ==> 0 < |f.kids[p]| <= most && Covers(f.nodes, f.kids[p]))
    && (forall id :: id in f.nodes ==> (IsLeaf(f, id) <==> id !in f.kids))
  }

  /** A published tree is tidy. */
  lemma SettledIsTidy(f: Forest, m: nat)
    requires Settled(f, m)
    ensures Tidy(f, m)
  {
    assert HierarchyForest.Rooted(f.nodes, f.kids, f.roots, Index(f.leaves).Keys);
    forall p | p in f.kids ensures 0 < |f.kids[p]| <= m && Covers(f.nodes, f.kids[p]) {
      assert HierarchyForest.Keeps(f.nodes, f.kids, p);
    }
    forall id | id in f.nodes ensures IsLeaf(f, id) <==> id !in f.kids {
      LeafIds(f.leaves, id);
    }
  }

  lemma LeafIds(leaves: seq<Node>, id: Id)
    ensures id in Ids(leaves) <==> id in Index(leaves)
  {
    if id in Ids(leaves) {
      var i :| 0 <= i < |leaves| && Ids(leaves)[i] == id;
      assert leaves[i] in leaves;
    }
    if id in Index(leaves) {
      var n :| n in leaves && n.id == id;
      var i :| 0 <= i < |leaves| && leaves[i] == n;
      assert Ids(leaves)[i] == id;
    }
  }

  function Cap(s: string, n: nat): string {
    if |s| <= n then s else s[..n]
  }

  function BlockFor(f: Forest, id: Id): EvidenceBlock {
    var n := if id in f.nodes then f.nodes[id] else Node(id, None, 0, 0, 0, None, None, 0);
    EvidenceBlock(Retrieval.Decimal(id), "/summary",
                  Cap(OrEmpty(n.title), 120) + "\n" + Cap(OrEmpty(n.summary), 1200))
  }

  // ---------------------------------------------------------------- one prompt

  function BlocksFor(f: Forest, offered: seq<Id>): (r: seq<EvidenceBlock>)
    ensures |r| == |offered|
  {
    seq(|offered|, i requires 0 <= i < |offered| => BlockFor(f, offered[i]))
  }

  predicate FitsPrompt(f: Forest, b: Bounds, offered: seq<Id>) {
    |Render(BlocksFor(f, offered))| <= b.scalars
  }

  /** The children offered: each one whose summary still fits. */
  function Offers(f: Forest, b: Bounds, rows: seq<Id>): seq<Id> {
    if rows == [] then []
    else
      var before, last := Offers(f, b, rows[..|rows|-1]), rows[|rows|-1];
      if FitsPrompt(f, b, before + [last]) then before + [last] else before
  }

  predicate Among(a: seq<Id>, b: seq<Id>) {
    forall x :: x in a ==> x in b
  }

  lemma {:induction false} OffersFacts(f: Forest, b: Bounds, rows: seq<Id>)
    ensures Among(Offers(f, b, rows), rows) && |Offers(f, b, rows)| <= |rows|
    ensures Offers(f, b, rows) == [] || FitsPrompt(f, b, Offers(f, b, rows))
  {
    hide FitsPrompt;
    if rows != [] { OffersFacts(f, b, rows[..|rows|-1]); }
  }

  lemma LongerPrompt(f: Forest, ids: seq<Id>, id: Id)
    ensures |Render(BlocksFor(f, ids))| <= |Render(BlocksFor(f, ids + [id]))|
  {
    var a, x := BlocksFor(f, ids), BlockFor(f, id);
    assert BlocksFor(f, ids + [id]) == a + [x];
    hide Render, RenderBlock, BlockFor;
    RenderLength(a);
    RenderLength(a + [x]);
    CostConcat(a, [x]);
  }

  /** Every child is offered exactly when all of their summaries fit the prompt together. */
  lemma {:induction false} AllOffered(f: Forest, b: Bounds, rows: seq<Id>)
    ensures Offers(f, b, rows) == rows <==> rows == [] || |Render(BlocksFor(f, rows))| <= b.scalars
  {
    if rows != [] {
      var init, last := rows[..|rows|-1], rows[|rows|-1];
      assert rows == init + [last];
      AllOffered(f, b, init);
      OffersFacts(f, b, init);
      LongerPrompt(f, init, last);
      var before := Offers(f, b, init);
      assert Offers(f, b, rows) == if FitsPrompt(f, b, before + [last]) then before + [last] else before;
      assert FitsPrompt(f, b, rows) <==> |Render(BlocksFor(f, rows))| <= b.scalars;
      hide *;
      assert (before + [last])[..|before|] == before && rows[..|init|] == init;
      assert |before| <= |init| < |rows|;
    }
  }

  /** The first `n` positions are those before `i`. */
  ghost predicate Split(at: seq<nat>, n: nat, i: nat) {
    n <= |at| && (forall k :: 0 <= k < n ==> at[k] < i) && forall k :: n <= k < |at| ==> i <= at[k]
  }

  /** Child `i` is offered exactly if its summary fits beside those of the children offered before it. */
  ghost predicate OffersChild(f: Forest, b: Bounds, rows: seq<Id>, at: seq<nat>, offered: seq<Id>, i: nat)
    requires i < |rows| && |offered| == |at|
  {
    exists n: nat :: Split(at, n, i) && (i in at <==> FitsPrompt(f, b, offered[..n] + [rows[i]]))
  }

  ghost predicate OfferedInTurn(f: Forest, b: Bounds, rows: seq<Id>, at: seq<nat>, offered: seq<Id>) {
    PickedAt(rows, at, offered) && forall i :: 0 <= i < |rows| ==> OffersChild(f, b, rows, at, offered, i)
  }

  lemma {:induction false} OffersInTurn(f: Forest, b: Bounds, rows: seq<Id>) returns (at: seq<nat>)
    ensures OfferedInTurn(f, b, rows, at, Offers(f, b, rows))
  {
    hide FitsPrompt;
    if rows == [] {
      at := [];
    } else {
      var n := |rows| - 1;
      at := OffersInTurn(f, b, rows[..n]);
      var offered := Offers(f, b, rows[..n]);
      assert Offers(f, b, rows) == if FitsPrompt(f, b, offered + [rows[n]]) then offered + [rows[n]] else offered;
      hide *;
      at := OneMoreOffer(f, b, rows, at, offered);
    }
  }

  lemma OneMoreOffer(f: Forest, b: Bounds, rows: seq<Id>, at: seq<nat>, offered: seq<Id>) returns (at2: seq<nat>)
    requires rows != [] && OfferedInTurn(f, b, rows[..|rows|-1], at, offered)
    ensures var last := rows[|rows|-1];
            OfferedInTurn(f, b, rows, at2, if FitsPrompt(f, b, offered + [last]) then offered + [last] else offered)
  {
    var n := |rows| - 1;
    hide FitsPrompt, OffersChild;
    PickedMore(rows, at, offered);
    forall i | i in at ensures i < n {}
    hide PickedAt;
    OffersLast(f, b, rows, at, offered);
    at2 := if FitsPrompt(f, b, offered + [rows[n]]) then at + [n] else at;
    forall i | 0 <= i < n
      ensures OffersChild(f, b, rows, at, offered, i) && OffersChild(f, b, rows, at + [n], offered + [rows[n]], i)
    {
      assert OffersChild(f, b, rows[..n], at, offered, i);
      OffersEarlier(f, b, rows, at, offered, i);
    }
  }

  lemma OffersLast(f: Forest, b: Bounds, rows: seq<Id>, at: seq<nat>, offered: seq<Id>)
    requires rows != [] && |offered| == |at| && forall i :: i in at ==> i < |rows| - 1
    ensures var n := |rows| - 1;
            if FitsPrompt(f, b, offered + [rows[n]]) then
              OffersChild(f, b, rows, at + [n], offered + [rows[n]], n)
            else OffersChild(f, b, rows, at, offered, n)
  {
    hide FitsPrompt;
    var n := |rows| - 1;
    forall k | 0 <= k < |at| ensures at[k] < n { assert at[k] in at; }
    assert (offered + [rows[n]])[..|at|] == offered && offered[..|at|] == offered;
    assert Split(at + [n], |at|, n) && Split(at, |at|, n);
    assert n in at + [n] && n !in at;
  }

  lemma OffersEarlier(f: Forest, b: Bounds, rows: seq<Id>, at: seq<nat>, offered: seq<Id>, i: nat)
    requires i < |rows| - 1 && |offered| == |at|
    requires OffersChild(f, b, rows[..|rows|-1], at, offered, i)
    ensures OffersChild(f, b, rows, at, offered, i)
    ensures OffersChild(f, b, rows, at + [|rows|-1], offered + [rows[|rows|-1]], i)
  {
    hide FitsPrompt;
    var n: nat :| Split(at, n, i) && (i in at <==> FitsPrompt(f, b, offered[..n] + [rows[..|rows|-1][i]]));
    assert (offered + [rows[|rows|-1]])[..n] == offered[..n];
    assert Split(at + [|rows|-1], n, i);
    assert i in at + [|rows|-1] <==> i in at;
  }

  /** The beginning of a text, no longer than `most`. */
  predicate Begins(piece: string, whole: string, most: nat) {
    piece <= whole && |piece| == if |whole| <= most then |whole| else most
  }

  /** The block shows a node of the tree: its identifier, then the beginnings of its title and its summary. */
  ghost predicate ShowsNode(f: Forest, id: Id, block: EvidenceBlock)
    requires id in f.nodes
  {
    block.id == Retrieval.Decimal(id) && block.pointer == "/summary" &&
    exists t, s :: block.excerpt == t + "\n" + s &&
                   Begins(t, OrEmpty(f.nodes[id].title), 120) && Begins(s, OrEmpty(f.nodes[id].summary), 1200)
  }

  lemma BlockShows(f: Forest, id: Id)
    requires id in f.nodes
    ensures ShowsNode(f, id, BlockFor(f, id))
  {
    var n := f.nodes[id];
    assert Begins(Cap(OrEmpty(n.title), 120), OrEmpty(n.title), 120);
    assert Begins(Cap(OrEmpty(n.summary), 1200), OrEmpty(n.summary), 1200);
  }

  /** The loop that builds the prompt: it offers every child whose summary still fits beside those before it. */
  method Offer(f: Forest, b: Bounds, rows: seq<Id>)
    returns (offered: seq<Id>, blocks: seq<EvidenceBlock>, skipped: bool)
    ensures |blocks| == |offered| && forall k :: 0 <= k < |offered| && offered[k] in f.nodes ==>
              ShowsNode(f, offered[k], blocks[k])
    ensures exists at :: OfferedInTurn(f, b, rows, at, offered)
    ensures offered == Offers(f, b, rows) && blocks == BlocksFor(f, offered) && (skipped <==> offered != rows)
  {
    offered, blocks, skipped := [], [], false;
    hide Render, BlockFor, OfferedInTurn;
    for i := 0 to |rows|
      invariant offered == Offers(f, b, rows[..i]) && blocks == BlocksFor(f, offered)
      invariant if skipped then |offered| < i else offered == rows[..i]
    {
      assert rows[..i+1][..i] == rows[..i];
      var block := BlockFor(f, rows[i]);
      assert BlocksFor(f, offered + [rows[i]]) == blocks + [block];
      if |Render(blocks + [block])| > b.scalars {
        skipped := true;
      } else {
        offered, blocks := offered + [rows[i]], blocks + [block];
      }
    }
    assert rows[..|rows|] == rows;
    forall k | 0 <= k < |offered| && offered[k] in f.nodes ensures ShowsNode(f, offered[k], blocks[k]) {
      BlockShows(f, offered[k]);
    }
    var at := OffersInTurn(f, b, rows);
  }

  /** Python's `dict.fromkeys`: first occurrences, in order. */
  function FirstOnly(ids: seq<Id>): seq<Id> {
    if ids == [] then []
    else
      var kept := FirstOnly(ids[..|ids|-1]);
      if ids[|ids|-1] in kept then kept else kept + [ids[|ids|-1]]
  }

  lemma {:induction false} FirstOnlyFacts(ids: seq<Id>)
    ensures forall x :: x in FirstOnly(ids) <==> x in ids
    ensures NoDup(FirstOnly(ids))
  {
    if ids != [] {
      FirstOnlyFacts(ids[..|ids|-1]);
      assert ids == ids[..|ids|-1] + [ids[|ids|-1]];
    }
  }

  // ---------------------------------------------------------------- one round

  /** What became of one prompt: the nominations of a reply that counts, or the reason there are none. */
  datatype Hearing = Nominated(ids: seq<Id>) | Failed(code: Code)

  function Hear(f: Forest, b: Bounds, w: World, round: nat, rows: seq<Id>): Hearing {
    var offered := Offers(f, b, rows);
    if offered == [] then Failed(ContextExhausted)
    else
      match w.reply(round, BlocksFor(f, offered))
      case Unavailable => Failed(ProviderUnavailable)
      case Malformed => Failed(InvalidSelection)
      case Chosen(ids) =>
        if !Among(ids, offered) then Failed(InvalidSelection)
        else if w.changedAfter(round) then Failed(RevisionChanged)
        else Nominated(FirstOnly(ids))
  }

  /** A completed round: the branch asked about, the children offered, those nominated, and those there was room for. */
  datatype Turn = Turn(parent: Option<Id>, offered: seq<Id>, nominated: seq<Id>, taken: seq<Id>)

  function Room(ids: seq<Id>, room: nat): seq<Id> {
    if |ids| <= room then ids else ids[..room]
  }

  /** The round that asks about `parent`, when there is room for `room` more chunks. */
  function TurnOf(f: Forest, b: Bounds, w: World, round: nat, parent: Option<Id>, room: nat): Result<Turn, Code> {
    var rows := Children(f, parent);
    if w.changed(round) then Err(RevisionChanged)
    else if |rows| > b.children then Err(RequiresRebuild)
    else if rows == [] then Ok(Turn(parent, [], [], []))
    else
      match Hear(f, b, w, round, rows)
      case Failed(code) => Err(code)
      case Nominated(ids) => Ok(Turn(parent, Offers(f, b, rows), ids, Room(ids, room)))
  }

  /** A prompt that left a child out, or a reply with more nominations than there was room for. */
  ghost predicate Cut(f: Forest, turn: Turn) {
    turn.offered != Children(f, turn.parent) || turn.taken != turn.nominated
  }

  /** The branches among accepted nominations, in the order they join the line. */
  function Branches(f: Forest, ids: seq<Id>): seq<Option<Id>> {
    if ids == [] then []
    else Branches(f, ids[..|ids|-1]) + (if IsLeaf(f, ids[|ids|-1]) then [] else [Some(ids[|ids|-1])])
  }

  /** The chunks selected once these nominations are accepted, in order. */
  function WithLeaves(f: Forest, selected: seq<Id>, ids: seq<Id>): seq<Id> {
    if ids == [] then selected
    else
      var before, id := WithLeaves(f, selected, ids[..|ids|-1]), ids[|ids|-1];
      if IsLeaf(f, id) && id !in before then before + [id] else before
  }

  lemma {:induction false} BranchesFacts(f: Forest, ids: seq<Id>, id: Id)
    ensures Some(id) in Branches(f, ids) <==> id in ids && !IsLeaf(f, id)
  {
    hide IsLeaf;
    if ids != [] {
      BranchesFacts(f, ids[..|ids|-1], id);
      assert ids == ids[..|ids|-1] + [ids[|ids|-1]];
    }
  }

  lemma {:induction false} WithLeavesFacts(f: Forest, selected: seq<Id>, ids: seq<Id>)
    ensures forall id :: id in WithLeaves(f, selected, ids) <==> id in selected || (id in ids && IsLeaf(f, id))
    ensures |WithLeaves(f, selected, ids)| <= |selected| + |ids|
    ensures NoDup(selected) ==> NoDup(WithLeaves(f, selected, ids))
  {
    hide IsLeaf;
    if ids != [] {
      WithLeavesFacts(f, selected, ids[..|ids|-1]);
      assert ids == ids[..|ids|-1] + [ids[|ids|-1]];
    }
  }

  // ---------------------------------------------------------------- the order of what is nominated

  /** The identifiers at some positions, in order. */
  ghost predicate PickedAt(ids: seq<Id>, at: seq<nat>, picked: seq<Id>) {
    Rising(at) && |picked| == |at| && forall k :: 0 <= k < |at| ==> at[k] < |ids| && picked[k] == ids[at[k]]
  }

  /** Every identifier where it appears first. */
  ghost predicate FirstsOf(ids: seq<Id>, firsts: seq<Id>) {
    exists at :: PickedAt(ids, at, firsts) && forall i: nat :: i in at <==> IsFirst(ids, i)
  }

  ghost predicate IsFirst(ids: seq<Id>, i: nat) {
    i < |ids| && ids[i] !in ids[..i]
  }

  /** The leaves that are not selected yet, where they appear first. */
  ghost predicate NewLeavesOf(f: Forest, selected: seq<Id>, ids: seq<Id>, leaves: seq<Id>) {
    exists at :: PickedAt(ids, at, leaves) && forall i: nat :: i in at <==> IsNewLeaf(f, selected, ids, i)
  }

  ghost predicate IsNewLeaf(f: Forest, selected: seq<Id>, ids: seq<Id>, i: nat) {
    IsFirst(ids, i) && IsLeaf(f, ids[i]) && ids[i] !in selected
  }

  /** The identifiers that are not leaves. */
  ghost predicate BranchesOf(f: Forest, ids: seq<Id>, branches: seq<Id>) {
    exists at :: PickedAt(ids, at, branches) && forall i: nat :: i in at <==> i < |ids| && !IsLeaf(f, ids[i])
  }

  lemma PickedMore(ids: seq<Id>, at: seq<nat>, picked: seq<Id>)
    requires ids != [] && PickedAt(ids[..|ids|-1], at, picked)
    ensures PickedAt(ids, at, picked) && PickedAt(ids, at + [|ids|-1], picked + [ids[|ids|-1]])
    ensures |ids| - 1 !in at
  {}

  lemma {:induction false} FirstsAt(ids: seq<Id>) returns (at: seq<nat>)
    ensures PickedAt(ids, at, FirstOnly(ids)) && forall i: nat :: i in at <==> IsFirst(ids, i)
  {
    if ids == [] {
      at := [];
    } else {
      var n := |ids| - 1;
      at := FirstsAt(ids[..n]);
      PickedMore(ids, at, FirstOnly(ids[..n]));
      FirstMore(ids, ids[..n]);
      hide *;
      if IsFirst(ids, n) { at := at + [n]; }
    }
  }

  lemma FirstMore(ids: seq<Id>, before: seq<Id>)
    requires ids != [] && before == ids[..|ids|-1]
    ensures forall i: nat :: IsFirst(before, i) <==> i < |before| && IsFirst(ids, i)
    ensures forall i: nat :: IsFirst(ids, i) ==> i <= |before|
    ensures FirstOnly(ids) == FirstOnly(before) + if IsFirst(ids, |before|) then [ids[|before|]] else []
  {
    FirstOnlyFacts(before);
    forall i: nat ensures IsFirst(before, i) <==> i < |before| && IsFirst(ids, i) {
      if i < |before| { assert before[..i] == ids[..i]; }
    }
  }

  /** Nominations count where they appear first. */
  lemma FirstOnlyInOrder(ids: seq<Id>)
    ensures FirstsOf(ids, FirstOnly(ids))
  {
    var at := FirstsAt(ids);
  }

  lemma {:induction false} LeavesAt(f: Forest, selected: seq<Id>, ids: seq<Id>) returns (at: seq<nat>, leaves: seq<Id>)
    ensures WithLeaves(f, selected, ids) == selected + leaves && PickedAt(ids, at, leaves)
    ensures forall i: nat :: i in at <==> IsNewLeaf(f, selected, ids, i)
  {
    hide IsLeaf;
    if ids == [] {
      at, leaves := [], [];
    } else {
      var n := |ids| - 1;
      at, leaves := LeavesAt(f, selected, ids[..n]);
      PickedMore(ids, at, leaves);
      NewLeafMore(f, selected, ids, ids[..n]);
      hide *;
      if IsNewLeaf(f, selected, ids, n) { at, leaves := at + [n], leaves + [ids[n]]; }
    }
  }

  lemma NewLeafMore(f: Forest, selected: seq<Id>, ids: seq<Id>, before: seq<Id>)
    requires ids != [] && before == ids[..|ids|-1]
    ensures forall i: nat :: IsNewLeaf(f, selected, before, i) <==> i < |before| && IsNewLeaf(f, selected, ids, i)
    ensures forall i: nat :: IsNewLeaf(f, selected, ids, i) ==> i <= |before|
    ensures WithLeaves(f, selected, ids) == WithLeaves(f, selected, before) +
              if IsNewLeaf(f, selected, ids, |before|) then [ids[|before|]] else []
  {
    hide IsLeaf;
    WithLeavesFacts(f, selected, before);
    FirstMore(ids, before);
  }

  lemma {:induction false} BranchesAt(f: Forest, ids: seq<Id>) returns (at: seq<nat>, branches: seq<Id>)
    ensures |Branches(f, ids)| == |branches| && forall k :: 0 <= k < |branches| ==>
              Branches(f, ids)[k] == Some(branches[k])
    ensures PickedAt(ids, at, branches) && forall i: nat :: i in at <==> i < |ids| && !IsLeaf(f, ids[i])
  {
    hide IsLeaf;
    if ids == [] {
      at, branches := [], [];
    } else {
      var n := |ids| - 1;
      at, branches := BranchesAt(f, ids[..n]);
      PickedMore(ids, at, branches);
      hide PickedAt;
      if !IsLeaf(f, ids[n]) { at, branches := at + [n], branches + [ids[n]]; }
    }
  }

  /** What accepting does to the selection and the line: new leaves and all branches join at the end, in order. */
  ghost predicate Joined(f: Forest, ids: seq<Id>, selected: seq<Id>, queue: seq<Option<Id>>, selected2: seq<Id>,
                         queue2: seq<Option<Id>>) {
    && selected <= selected2 && NewLeavesOf(f, selected, ids, selected2[|selected|..])
    && queue <= queue2
    && exists branches :: BranchesOf(f, ids, branches) && AllSome(queue2[|queue|..], branches)
  }

  ghost predicate AllSome(line: seq<Option<Id>>, ids: seq<Id>) {
    |line| == |ids| && forall k :: 0 <= k < |ids| ==> line[k] == Some(ids[k])
  }

  lemma AcceptedInOrder(f: Forest, ids: seq<Id>, selected: seq<Id>, queue: seq<Option<Id>>)
    ensures Joined(f, ids, selected, queue, WithLeaves(f, selected, ids), queue + Branches(f, ids))
  {
    var at, leaves := LeavesAt(f, selected, ids);
    var at2, branches := BranchesAt(f, ids);
    hide PickedAt, IsLeaf, WithLeaves, Branches;
    assert (selected + leaves)[|selected|..] == leaves;
    assert (queue + Branches(f, ids))[|queue|..] == Branches(f, ids);
    assert BranchesOf(f, ids, branches);
  }

  /** The model's part of a round, up to the second look at the revisions. */
  method Ask(f: Forest, b: Bounds, w: World, round: nat, rows: seq<Id>)
    returns (heard: Hearing, offered: seq<Id>, skipped: bool)
    ensures heard == Hear(f, b, w, round, rows) && offered == Offers(f, b, rows) && (skipped <==> offered != rows)
  {
    var blocks;
    offered, blocks, skipped := Offer(f, b, rows);
    hide BlocksFor, Offers, FirstOnly, OfferedInTurn, ShowsNode;
    if blocks == [] {
      return Failed(ContextExhausted), offered, skipped;
    }
    var reply := w.reply(round, blocks);
    if reply.Unavailable? {
      return Failed(ProviderUnavailable), offered, skipped;
    }
    if reply.Malformed? || exists id :: id in reply.ids && id !in offered {
      return Failed(InvalidSelection), offered, skipped;
    }
    var ids := FirstOnly(reply.ids);
    if w.changedAfter(round) {
      return Failed(RevisionChanged), offered, skipped;
    }
    return Nominated(ids), offered, skipped;
  }

  /** The accepted nominations of one reply: leaves become chunks with all their parts, branches wait their turn. */
  method Accept(t: Captured, q: Query, b: Bounds, ids: seq<Id>, selected: seq<Id>, queue: seq<Option<Id>>,
                candidates: seq<Retrieval.Candidate>, limited: bool)
    returns (selected2: seq<Id>, queue2: seq<Option<Id>>, candidates2: seq<Retrieval.Candidate>, limited2: bool)
    requires candidates == CandidatesOf(t, q, b, selected) && (!limited ==> AllWhole(t, b, selected))
    ensures selected2 == WithLeaves(t.forest, selected, ids) && queue2 == queue + Branches(t.forest, ids)
    ensures Joined(t.forest, ids, selected, queue, selected2, queue2)
    ensures candidates2 == CandidatesOf(t, q, b, selected2)
    ensures StoreInvariants.ClashFree(t.messages) ==> QuotesChunks(t, q, b, selected2, candidates2)
    ensures limited2 <==> limited || !AllWhole(t, b, selected2)
  {
    hide CandidatesOf, IsLeaf, WholeChunk, QuotesChunks, Joined, StoreInvariants.ClashFree;
    selected2, queue2, candidates2, limited2 := selected, queue, candidates, limited;
    for i := 0 to |ids|
      invariant selected2 == WithLeaves(t.forest, selected, ids[..i]) && queue2 == queue + Branches(t.forest, ids[..i])
      invariant candidates2 == CandidatesOf(t, q, b, selected2)
      invariant limited2 <==> limited || !AllWhole(t, b, selected2)
    {
      var id := ids[i];
      assert ids[..i+1][..i] == ids[..i];
      if IsLeaf(t.forest, id) {
        if id !in selected2 {
          var more, short := ChunkLoop(t, q, b, id);
          OneMore(t, q, b, selected2, id);
          selected2, candidates2, limited2 := selected2 + [id], candidates2 + more, limited2 || short;
        }
      } else {
        queue2 := queue2 + [Some(id)];
      }
    }
    assert ids[..|ids|] == ids;
    if StoreInvariants.ClashFree(t.messages) { CandidatesAreQuotes(t, q, b, selected2); }
    AcceptedInOrder(t.forest, ids, selected, queue);
  }

  lemma OneMore(t: Captured, q: Query, b: Bounds, selected: seq<Id>, id: Id)
    ensures CandidatesOf(t, q, b, selected + [id]) ==
            CandidatesOf(t, q, b, selected) + ManyCandidates(q, b, Fetched(ChunkMessages(t, id)))
    ensures AllWhole(t, b, selected + [id]) <==> AllWhole(t, b, selected) && WholeChunk(t, b, id)
  {
    hide WholeChunk, ManyCandidates, Fetched, ChunkMessages;
    assert (selected + [id])[..|selected|] == selected;
  }

  // ---------------------------------------------------------------- the whole walk

  /** Every branch that ever joined the line, in order; the walk begins at the root level. */
  function Line(f: Forest, turns: seq<Turn>): seq<Option<Id>> {
    if turns == [] then [None] else Line(f, turns[..|turns|-1]) + Branches(f, turns[|turns|-1].taken)
  }

  /** The chunks selected, in order. */
  function Selected(f: Forest, turns: seq<Turn>): seq<Id> {
    if turns == [] then [] else WithLeaves(f, Selected(f, turns[..|turns|-1]), turns[|turns|-1].taken)
  }

  /** Successful model calls. */
  function Calls(turns: seq<Turn>): nat {
    if turns == [] then 0 else Calls(turns[..|turns|-1]) + (if turns[|turns|-1].offered == [] then 0 else 1)
  }

  /** The walk goes on: a branch waits, there is room for a chunk, and a call and time are left. */
  ghost predicate GoesOn(f: Forest, b: Bounds, w: World, turns: seq<Turn>) {
    |turns| < |Line(f, turns)| && |Selected(f, turns)| < b.limit && Calls(turns) < b.calls && !w.late(|turns|)
  }

  /** The next round after these: about the branch that has waited longest. */
  ghost function NextTurn(f: Forest, b: Bounds, w: World, turns: seq<Turn>): Result<Turn, Code>
    requires GoesOn(f, b, w, turns)
  {
    TurnOf(f, b, w, |turns|, Line(f, turns)[|turns|], b.limit - |Selected(f, turns)|)
  }

  /** Each of these rounds is what the one before it leads to. */
  ghost predicate Played(f: Forest, b: Bounds, w: World, turns: seq<Turn>) {
    turns != [] ==>
      var before := turns[..|turns|-1];
      Played(f, b, w, before) && GoesOn(f, b, w, before) && NextTurn(f, b, w, before) == Ok(turns[|turns|-1])
  }

  ghost predicate AnyCut(f: Forest, turns: seq<Turn>) {
    exists k :: 0 <= k < |turns| && Cut(f, turns[k])
  }

  /**
   * How the walk ends: at a round that fails, with nothing but its code; or once it goes on no further, with
   * the chunks selected, limited exactly if a branch still waits, a prompt or a reply was cut, or a text was.
   */
  ghost predicate Ends(t: Captured, q: Query, b: Bounds, w: World, turns: seq<Turn>, r: Outcome) {
    var f := t.forest;
    if GoesOn(f, b, w, turns) then
      NextTurn(f, b, w, turns).Err? && r == Fallback(NextTurn(f, b, w, turns).error)
    else
      && r.selected == Selected(f, turns) && r.candidates == CandidatesOf(t, q, b, r.selected)
      && r.diagnostic == (if |turns| < |Line(f, turns)| then Some(NavigationLimited) else None)
      && (r.limited <==> |turns| < |Line(f, turns)| || AnyCut(f, turns) || !AllWhole(t, b, r.selected))
  }

  /** The loop's variables, and what they hold of the rounds so far. */
  datatype Walk = Walk(queue: seq<Option<Id>>, selected: seq<Id>, candidates: seq<Retrieval.Candidate>, steps: nat,
                       limited: bool)

  ghost predicate Holds(t: Captured, q: Query, b: Bounds, wk: Walk, turns: seq<Turn>) {
    && |turns| <= |Line(t.forest, turns)| && wk.queue == Line(t.forest, turns)[|turns|..]
    && wk.selected == Selected(t.forest, turns) && wk.candidates == CandidatesOf(t, q, b, wk.selected)
    && wk.steps == Calls(turns)
    && (wk.limited <==> AnyCut(t.forest, turns) || !AllWhole(t, b, wk.selected))
  }

  /** One more round in the walk's books. */
  lemma OneMoreTurn(f: Forest, turns: seq<Turn>, turn: Turn)
    ensures Line(f, turns + [turn]) == Line(f, turns) + Branches(f, turn.taken)
    ensures Selected(f, turns + [turn]) == WithLeaves(f, Selected(f, turns), turn.taken)
    ensures Calls(turns + [turn]) == Calls(turns) + (if turn.offered == [] then 0 else 1)
    ensures AnyCut(f, turns + [turn]) <==> AnyCut(f, turns) || Cut(f, turn)
  {
    hide Branches, WithLeaves, Cut;
    var more := turns + [turn];
    assert more[..|turns|] == turns && more[|turns|] == turn;
    if k :| 0 <= k < |turns| && Cut(f, turns[k]) { assert Cut(f, more[k]); }
    if Cut(f, turn) { assert Cut(f, more[|turns|]); }
  }

  lemma PlayedOneMore(f: Forest, b: Bounds, w: World, turns: seq<Turn>, turn: Turn)
    requires Played(f, b, w, turns) && GoesOn(f, b, w, turns) && NextTurn(f, b, w, turns) == Ok(turn)
    ensures Played(f, b, w, turns + [turn])
  {
    hide GoesOn, NextTurn;
    assert (turns + [turn])[..|turns|] == turns;
  }

  /** What the loop's test says about the rounds so far. */
  lemma HoldsTest(t: Captured, q: Query, b: Bounds, w: World, wk: Walk, turns: seq<Turn>)
    requires Holds(t, q, b, wk, turns)
    ensures GoesOn(t.forest, b, w, turns) <==>
              wk.queue != [] && |wk.selected| < b.limit && wk.steps < b.calls && !w.late(|turns|)
    ensures wk.queue != [] <==> |turns| < |Line(t.forest, turns)|
    ensures wk.queue != [] ==> wk.queue[0] == Line(t.forest, turns)[|turns|]
    ensures wk.candidates == CandidatesOf(t, q, b, wk.selected) && (!wk.limited ==> AllWhole(t, b, wk.selected))
  {
    hide Line, Selected, Calls, CandidatesOf, AnyCut, AllWhole;
  }

  /** The books after a round that was accepted. */
  lemma HoldsAccepted(t: Captured, q: Query, b: Bounds, wk: Walk, turns: seq<Turn>, turn: Turn, next: Walk)
    requires Holds(t, q, b, wk, turns) && wk.queue != []
    requires next.queue == wk.queue[1..] + Branches(t.forest, turn.taken)
    requires next.selected == WithLeaves(t.forest, wk.selected, turn.taken)
    requires next.candidates == CandidatesOf(t, q, b, next.selected)
    requires next.steps == wk.steps + (if turn.offered == [] then 0 else 1)
    requires next.limited <==> wk.limited || Cut(t.forest, turn) || !AllWhole(t, b, next.selected)
    ensures Holds(t, q, b, next, turns + [turn])
  {
    OneMoreTurn(t.forest, turns, turn);
    StillPartial(t, b, wk.selected, turn.taken);
    hide Line, Selected, Calls, CandidatesOf, AnyCut, AllWhole, Branches, WithLeaves, Cut;
    var line, more := Line(t.forest, turns), Branches(t.forest, turn.taken);
    assert (line + more)[|turns|+1..] == line[|turns|..][1..] + more;
  }

  lemma StillPartial(t: Captured, b: Bounds, selected: seq<Id>, ids: seq<Id>)
    ensures AllWhole(t, b, WithLeaves(t.forest, selected, ids)) ==> AllWhole(t, b, selected)
  {
    WithLeavesFacts(t.forest, selected, ids);
    hide WholeChunk, IsLeaf;
  }

  /** The part of a round that asks the model, about a branch with children. */
  method AskAbout(t: Captured, q: Query, b: Bounds, w: World, wk: Walk, ghost turns: seq<Turn>, round: nat,
                  parent: Option<Id>, rows: seq<Id>, room: nat)
    returns (code: Option<Code>, next: Walk, ghost turn: Turn)
    requires Holds(t, q, b, wk, turns) && wk.queue != [] && rows == Children(t.forest, parent)
    requires wk.candidates == CandidatesOf(t, q, b, wk.selected) && (!wk.limited ==> AllWhole(t, b, wk.selected))
    ensures match Hear(t.forest, b, w, round, rows)
            case Failed(e) => code == Some(e)
            case Nominated(ids) =>
              && code == None && turn == Turn(parent, Offers(t.forest, b, rows), ids, Room(ids, room))
              && Holds(t, q, b, next, turns + [turn]) && next.steps == wk.steps + 1
  {
    hide *;
    next, turn := wk, Turn(None, [], [], []);
    var heard, offered, skipped := Ask(t.forest, b, w, round, rows);
    if heard.Failed? {
      return Some(heard.code), next, turn;
    }
    NominatedSome(t.forest, b, w, round, rows);
    var taken := Room(heard.ids, room);
    var cut := skipped || |heard.ids| > room;
    var selected, queue, candidates, limited :=
      Accept(t, q, b, taken, wk.selected, wk.queue[1..], wk.candidates, wk.limited || cut);
    next := Walk(queue, selected, candidates, wk.steps + 1, limited);
    turn := Turn(parent, offered, heard.ids, taken);
    TurnIsCut(t.forest, b, turn, rows, room);
    HoldsAccepted(t, q, b, wk, turns, turn, next);
    return None, next, turn;
  }

  lemma NominatedSome(f: Forest, b: Bounds, w: World, round: nat, rows: seq<Id>)
    requires Hear(f, b, w, round, rows).Nominated?
    ensures Offers(f, b, rows) != []
  {
    hide Offers, BlocksFor, FirstOnly;
  }

  /** One round: take the branch that has waited longest, ask about its children, accept what is nominated. */
  method Round(t: Captured, q: Query, b: Bounds, w: World, wk: Walk, ghost turns: seq<Turn>, round: nat)
    returns (code: Option<Code>, next: Walk, ghost turn: Turn)
    requires Holds(t, q, b, wk, turns) && GoesOn(t.forest, b, w, turns) && round == |turns|
    ensures match NextTurn(t.forest, b, w, turns)
            case Err(e) => code == Some(e)
            case Ok(x) => code == None && turn == x && Holds(t, q, b, next, turns + [x])
    ensures code == None ==> next.steps == wk.steps + 1 || (next.steps == wk.steps && |next.queue| < |wk.queue|)
  {
    hide *;
    HoldsTest(t, q, b, w, wk, turns);
    NextIs(t, q, b, w, wk, turns);
    turn := Turn(None, [], [], []);
    var parent, room := wk.queue[0], b.limit - |wk.selected|;
    next := wk.(queue := wk.queue[1..]);
    var rows := Children(t.forest, parent);
    TurnCases(t.forest, b, w, round, parent, room);
    if w.changed(round) {
      return Some(RevisionChanged), next, turn;
    }
    if |rows| > b.children {
      return Some(RequiresRebuild), next, turn;
    }
    if rows == [] {
      turn := Turn(parent, [], [], []);
      NothingTaken(t, b, wk.selected, turn);
      HoldsAccepted(t, q, b, wk, turns, turn, next);
      return None, next, turn;
    }
    code, next, turn := AskAbout(t, q, b, w, wk, turns, round, parent, rows, room);
  }

  lemma NextIs(t: Captured, q: Query, b: Bounds, w: World, wk: Walk, turns: seq<Turn>)
    requires Holds(t, q, b, wk, turns) && GoesOn(t.forest, b, w, turns)
    ensures wk.queue != [] && |wk.selected| < b.limit
    ensures NextTurn(t.forest, b, w, turns) == TurnOf(t.forest, b, w, |turns|, wk.queue[0], b.limit - |wk.selected|)
  {
    hide Line, Selected, Calls, CandidatesOf, AnyCut, AllWhole, TurnOf;
  }

  lemma TurnCases(f: Forest, b: Bounds, w: World, round: nat, parent: Option<Id>, room: nat)
    ensures var rows := Children(f, parent);
            TurnOf(f, b, w, round, parent, room) ==
              if w.changed(round) then Err(RevisionChanged)
              else if |rows| > b.children then Err(RequiresRebuild)
              else if rows == [] then Ok(Turn(parent, [], [], []))
              else if Hear(f, b, w, round, rows).Failed? then Err(Hear(f, b, w, round, rows).code)
              else
                var ids := Hear(f, b, w, round, rows).ids;
                Ok(Turn(parent, Offers(f, b, rows), ids, Room(ids, room)))
  {
    hide Children, Hear, Offers, Room;
  }

  lemma NothingTaken(t: Captured, b: Bounds, selected: seq<Id>, turn: Turn)
    requires turn.taken == [] && turn.nominated == [] && turn.offered == Children(t.forest, turn.parent)
    ensures Branches(t.forest, turn.taken) == [] && WithLeaves(t.forest, selected, turn.taken) == selected
    ensures !Cut(t.forest, turn)
  {}

  lemma TurnIsCut(f: Forest, b: Bounds, turn: Turn, rows: seq<Id>, room: nat)
    requires rows == Children(f, turn.parent) && turn.taken == Room(turn.nominated, room)
    ensures Cut(f, turn) <==> turn.offered != rows || |turn.nominated| > room
  {}

  /**
   * The loop over the queue of branches.  It ends because every round either spends one of the allowed
   * calls or takes a branch off the queue without replacement.  `turns` are its completed rounds.  Whatever
   * the model replies, distinct leaves come back, no more than asked for, with every text of their messages
   * quoted once and in order.
   */
  method Navigate(t: Captured, q: Query, b: Bounds, w: World) returns (r: Outcome, ghost turns: seq<Turn>)
    ensures Played(t.forest, b, w, turns) && Ends(t, q, b, w, turns, r)
    ensures |r.selected| <= b.limit && NoDup(r.selected) && (forall id :: id in r.selected ==> IsLeaf(t.forest, id))
    ensures r.candidates == CandidatesOf(t, q, b, r.selected) && (r.diagnostic.Some? ==> r.limited)
    ensures StoreInvariants.ClashFree(t.messages) ==> QuotesChunks(t, q, b, r.selected, r.candidates)
  {
    var wk := Walk([None], [], [], 0, false);
    turns := [];
    var round := 0;
    StartHolds(t, q, b, w);
    hide *;
    while wk.queue != [] && |wk.selected| < b.limit
      invariant Holds(t, q, b, wk, turns) && Played(t.forest, b, w, turns) && round == |turns| && wk.steps <= b.calls
      decreases b.calls - wk.steps, |wk.queue|
    {
      HoldsTest(t, q, b, w, wk, turns);
      if wk.steps >= b.calls || w.late(round) {
        break;
      }
      var code, next;
      ghost var turn;
      code, next, turn := Round(t, q, b, w, wk, turns, round);
      if code.Some? {
        r := Fallback(code.value);
        EndsFailed(t, q, b, w, turns, r);
        ResultIsBounded(t, q, b, w, turns, r);
        ResultQuotes(t, q, b, r);
        return;
      }
      PlayedOneMore(t.forest, b, w, turns, turn);
      wk, round, turns := next, round + 1, turns + [turn];
    }
    HoldsTest(t, q, b, w, wk, turns);
    r := Outcome(wk.candidates, wk.selected, if wk.queue != [] then Some(NavigationLimited) else None,
                 wk.limited || wk.queue != []);
    EndsStill(t, q, b, w, wk, turns, r);
    ResultIsBounded(t, q, b, w, turns, r);
    ResultQuotes(t, q, b, r);
  }

  lemma ResultQuotes(t: Captured, q: Query, b: Bounds, r: Outcome)
    requires r.candidates == CandidatesOf(t, q, b, r.selected)
    ensures StoreInvariants.ClashFree(t.messages) ==> QuotesChunks(t, q, b, r.selected, r.candidates)
  {
    hide *;
    if StoreInvariants.ClashFree(t.messages) { CandidatesAreQuotes(t, q, b, r.selected); }
  }

  lemma StartHolds(t: Captured, q: Query, b: Bounds, w: World)
    ensures Holds(t, q, b, Walk([None], [], [], 0, false), []) && Played(t.forest, b, w, [])
  {
    hide WholeChunk;
  }

  lemma EndsFailed(t: Captured, q: Query, b: Bounds, w: World, turns: seq<Turn>, r: Outcome)
    requires GoesOn(t.forest, b, w, turns) && NextTurn(t.forest, b, w, turns).Err?
    requires r == Fallback(NextTurn(t.forest, b, w, turns).error)
    ensures Ends(t, q, b, w, turns, r)
  {
    hide GoesOn, NextTurn;
  }

  lemma EndsStill(t: Captured, q: Query, b: Bounds, w: World, wk: Walk, turns: seq<Turn>, r: Outcome)
    requires Holds(t, q, b, wk, turns) && !GoesOn(t.forest, b, w, turns)
    requires r == Outcome(wk.candidates, wk.selected, if wk.queue != [] then Some(NavigationLimited) else None,
                          wk.limited || wk.queue != [])
    ensures Ends(t, q, b, w, turns, r)
  {
    hide Line, Selected, Calls, CandidatesOf, AnyCut, AllWhole, GoesOn;
  }

  // ---------------------------------------------------------------- what a walk amounts to

  lemma PlayedLast(f: Forest, b: Bounds, w: World, turns: seq<Turn>)
    requires Played(f, b, w, turns) && turns != []
    ensures var before, last := turns[..|turns|-1], turns[|turns|-1];
            && Played(f, b, w, before) && GoesOn(f, b, w, before) && NextTurn(f, b, w, before) == Ok(last)
            && turns == before + [last]
  {
    hide GoesOn, NextTurn;
  }

  /** What a completed round says about itself. */
  lemma TurnFacts(f: Forest, b: Bounds, w: World, round: nat, parent: Option<Id>, room: nat, turn: Turn)
    requires TurnOf(f, b, w, round, parent, room) == Ok(turn)
    ensures turn.parent == parent && !w.changed(round) && Among(turn.offered, Children(f, parent))
    ensures |turn.taken| <= room && turn.taken <= turn.nominated && Among(turn.nominated, turn.offered)
    ensures turn.offered != [] ==>
              && !w.changedAfter(round) && w.reply(round, BlocksFor(f, turn.offered)).Chosen?
              && FirstsOf(w.reply(round, BlocksFor(f, turn.offered)).ids, turn.nominated)
    ensures turn.offered == [] ==> Children(f, parent) == [] && turn.nominated == []
  {
    OffersFacts(f, b, Children(f, parent));
    hide Offers, BlocksFor, FirstOnly, Children, FirstsOf;
    if turn.offered != [] {
      FirstOnlyFacts(w.reply(round, BlocksFor(f, turn.offered)).ids);
      FirstOnlyInOrder(w.reply(round, BlocksFor(f, turn.offered)).ids);
    }
  }

  /** The bounds every walk keeps: calls, chunks, and each chunk once. */
  lemma {:induction false} WalkIsBounded(f: Forest, b: Bounds, w: World, turns: seq<Turn>)
    requires Played(f, b, w, turns)
    ensures Calls(turns) <= b.calls && |Selected(f, turns)| <= b.limit && NoDup(Selected(f, turns))
    ensures forall id :: id in Selected(f, turns) ==> IsLeaf(f, id)
    ensures |turns| <= |Line(f, turns)|
  {
    hide *;
    if turns == [] {
      NothingSelected(f);
    } else {
      PlayedLast(f, b, w, turns);
      var before, last := turns[..|turns|-1], turns[|turns|-1];
      WalkIsBounded(f, b, w, before);
      GoingOn(f, b, w, before);
      TurnFacts(f, b, w, |before|, Line(f, before)[|before|], b.limit - |Selected(f, before)|, last);
      OneMoreTurn(f, before, last);
      WithLeavesFacts(f, Selected(f, before), last.taken);
    }
  }

  lemma NothingSelected(f: Forest)
    ensures Selected(f, []) == [] && NoDup<Id>([]) && Calls([]) == 0 && Line(f, []) == [None]
  {}

  lemma GoingOn(f: Forest, b: Bounds, w: World, turns: seq<Turn>)
    requires GoesOn(f, b, w, turns)
    ensures |turns| < |Line(f, turns)| && |Selected(f, turns)| < b.limit && Calls(turns) < b.calls && !w.late(|turns|)
    ensures NextTurn(f, b, w, turns) ==
              TurnOf(f, b, w, |turns|, Line(f, turns)[|turns|], b.limit - |Selected(f, turns)|)
  {
    hide Line, Selected, Calls, TurnOf;
  }

  /** Some round nominated this node and had room for it. */
  ghost predicate Taken(turns: seq<Turn>, id: Id) {
    exists k :: 0 <= k < |turns| && id in turns[k].taken
  }

  lemma TakenOneMore(turns: seq<Turn>, turn: Turn, id: Id)
    ensures Taken(turns + [turn], id) <==> Taken(turns, id) || id in turn.taken
  {
    var more := turns + [turn];
    if k :| 0 <= k < |turns| && id in turns[k].taken { assert id in more[k].taken; }
    if id in turn.taken { assert id in more[|turns|].taken; }
  }

  /** Every node taken is followed: a leaf is selected, a branch joins the line; and nothing else is or does. */
  lemma {:induction false} TakenIsFollowed(f: Forest, turns: seq<Turn>, id: Id)
    ensures id in Selected(f, turns) <==> Taken(turns, id) && IsLeaf(f, id)
    ensures Some(id) in Line(f, turns) <==> Taken(turns, id) && !IsLeaf(f, id)
  {
    if turns != [] {
      var before, last := turns[..|turns|-1], turns[|turns|-1];
      assert turns == before + [last];
      hide *;
      TakenIsFollowed(f, before, id);
      TakenOneMore(before, last, id);
      OneMoreTurn(f, before, last);
      WithLeavesFacts(f, Selected(f, before), last.taken);
      BranchesFacts(f, last.taken, id);
    }
  }

  /** Branches are asked about in the order they joined the line, and no round saw a changed revision. */
  lemma {:induction false} WalkIsFifo(f: Forest, b: Bounds, w: World, turns: seq<Turn>, k: nat)
    requires Played(f, b, w, turns) && k < |turns|
    ensures |turns| <= |Line(f, turns)| && turns[k].parent == Line(f, turns)[k]
    ensures !w.changed(k) && !w.late(k) && (turns[k].offered != [] ==> !w.changedAfter(k))
    ensures Among(turns[k].offered, Children(f, turns[k].parent)) && Among(turns[k].nominated, turns[k].offered)
    ensures turns[k].taken <= turns[k].nominated
    ensures turns[k].offered != [] ==>
              && w.reply(k, BlocksFor(f, turns[k].offered)).Chosen?
              && FirstsOf(w.reply(k, BlocksFor(f, turns[k].offered)).ids, turns[k].nominated)
  {
    hide *;
    PlayedLast(f, b, w, turns);
    var before, last := turns[..|turns|-1], turns[|turns|-1];
    GoingOn(f, b, w, before);
    OneMoreTurn(f, before, last);
    if k == |before| {
      TurnFacts(f, b, w, k, Line(f, before)[k], b.limit - |Selected(f, before)|, last);
    } else {
      WalkIsFifo(f, b, w, before, k);
      assert turns[k] == before[k];
    }
  }

  /** Some round asked about this branch. */
  ghost predicate Visited(turns: seq<Turn>, parent: Option<Id>) {
    exists k :: 0 <= k < |turns| && turns[k].parent == parent
  }

  /**
   * A result that is not limited is thorough: the root level was asked about; in every round all children
   * were offered and all nominations taken; every nominated leaf is selected and every nominated branch
   * was asked about in turn; what is selected was nominated; and every text part of it came back whole.
   */
  ghost predicate Thorough(t: Captured, b: Bounds, turns: seq<Turn>, r: Outcome) {
    && Visited(turns, None)
    && (forall k :: 0 <= k < |turns| ==>
          turns[k].offered == Children(t.forest, turns[k].parent) && turns[k].taken == turns[k].nominated)
    && (forall k, id :: 0 <= k < |turns| && id in turns[k].nominated ==>
          if IsLeaf(t.forest, id) then id in r.selected else Visited(turns, Some(id)))
    && (forall id :: id in r.selected ==> Taken(turns, id) && IsLeaf(t.forest, id))
    && AllWhole(t, b, r.selected)
  }

  lemma UnlimitedIsThorough(t: Captured, q: Query, b: Bounds, w: World, turns: seq<Turn>, r: Outcome)
    requires Played(t.forest, b, w, turns) && Ends(t, q, b, w, turns, r) && !r.limited
    ensures Thorough(t, b, turns, r)
  {
    var f := t.forest;
    EndsOpen(t, q, b, w, turns, r);
    WalkIsBounded(f, b, w, turns);
    hide *;
    LineStarts(f, turns);
    forall p | p in Line(f, turns) ensures Visited(turns, p) {
      var k :| 0 <= k < |turns| && Line(f, turns)[k] == p;
      WalkIsFifo(f, b, w, turns, k);
      VisitedAt(turns, k);
    }
    forall k | 0 <= k < |turns|
      ensures turns[k].offered == Children(f, turns[k].parent) && turns[k].taken == turns[k].nominated
    {
      Uncut(f, turns, k);
    }
    forall k, id | 0 <= k < |turns| && id in turns[k].nominated
      ensures if IsLeaf(f, id) then id in r.selected else Visited(turns, Some(id))
    {
      TakenAt(turns, k, id);
      TakenIsFollowed(f, turns, id);
    }
    forall id | id in r.selected ensures Taken(turns, id) && IsLeaf(f, id) { TakenIsFollowed(f, turns, id); }
    ThoroughWhole(t, b, turns, r);
  }

  lemma EndsOpen(t: Captured, q: Query, b: Bounds, w: World, turns: seq<Turn>, r: Outcome)
    requires Ends(t, q, b, w, turns, r) && !r.limited
    ensures r.selected == Selected(t.forest, turns) && |turns| >= |Line(t.forest, turns)|
    ensures !AnyCut(t.forest, turns) && AllWhole(t, b, r.selected)
  {
    hide Line, Selected, Calls, CandidatesOf, AnyCut, AllWhole, NextTurn;
  }

  lemma {:induction false} LineStarts(f: Forest, turns: seq<Turn>)
    ensures |Line(f, turns)| >= 1 && Line(f, turns)[0] == None
  {
    hide Branches;
    if turns != [] { LineStarts(f, turns[..|turns|-1]); }
  }

  lemma VisitedAt(turns: seq<Turn>, k: nat)
    requires k < |turns|
    ensures Visited(turns, turns[k].parent)
  {}

  lemma TakenAt(turns: seq<Turn>, k: nat, id: Id)
    requires k < |turns| && id in turns[k].taken
    ensures Taken(turns, id)
  {}

  lemma Uncut(f: Forest, turns: seq<Turn>, k: nat)
    requires k < |turns| && !AnyCut(f, turns)
    ensures turns[k].offered == Children(f, turns[k].parent) && turns[k].taken == turns[k].nominated
  {
    hide Children;
    assert !Cut(f, turns[k]);
  }

  lemma ThoroughWhole(t: Captured, b: Bounds, turns: seq<Turn>, r: Outcome)
    requires Visited(turns, None) && AllWhole(t, b, r.selected)
    requires forall k :: 0 <= k < |turns| ==>
               turns[k].offered == Children(t.forest, turns[k].parent) && turns[k].taken == turns[k].nominated
    requires forall k, id :: 0 <= k < |turns| && id in turns[k].nominated ==>
               if IsLeaf(t.forest, id) then id in r.selected else Visited(turns, Some(id))
    requires forall id :: id in r.selected ==> Taken(turns, id) && IsLeaf(t.forest, id)
    ensures Thorough(t, b, turns, r)
  {
    hide Visited, AllWhole, Children, IsLeaf, Taken;
  }

  /** The rounds in which the model was asked. */
  function Prompted(turns: seq<Turn>): set<int> {
    set i | 0 <= i < |turns| && turns[i].offered != []
  }

  lemma {:induction false} CallsAreRounds(turns: seq<Turn>)
    ensures Calls(turns) == |Prompted(turns)|
  {
    if turns == [] {
      assert Prompted(turns) == {};
    } else {
      var n := |turns| - 1;
      CallsAreRounds(turns[..n]);
      assert Prompted(turns) == Prompted(turns[..n]) + if turns[n].offered == [] then {} else {n};
    }
  }

  /**
   * What any result keeps to: calls and chunks within their limits, distinct chunks, and leaves only; and it leaves
   * a branch waiting only when chunks, calls or time are used up.
   */
  lemma ResultIsBounded(t: Captured, q: Query, b: Bounds, w: World, turns: seq<Turn>, r: Outcome)
    requires Played(t.forest, b, w, turns) && Ends(t, q, b, w, turns, r)
    ensures |Prompted(turns)| <= b.calls && |r.selected| <= b.limit && NoDup(r.selected)
    ensures r.diagnostic == Some(NavigationLimited) ==>
              |r.selected| == b.limit || |Prompted(turns)| == b.calls || w.late(|turns|)
    ensures r.candidates == CandidatesOf(t, q, b, r.selected)
            && (forall id :: id in r.selected ==> IsLeaf(t.forest, id))
    ensures r.diagnostic.Some? ==> r.limited
    ensures r.diagnostic == Some(RequiresRebuild) ==> !Tidy(t.forest, b.children)
  {
    WalkIsBounded(t.forest, b, w, turns);
    EndsCases(t, q, b, w, turns, r);
    NothingSelected(t.forest);
    CallsAreRounds(turns);
    NotGoingOn(t.forest, b, w, turns);
    assert CandidatesOf(t, q, b, []) == [];
    hide *;
    if GoesOn(t.forest, b, w, turns) {
      GoingOn(t.forest, b, w, turns);
      FailsOtherwise(t.forest, b, w, turns);
      RebuildMeansUntidy(t.forest, b, w, |turns|, Line(t.forest, turns)[|turns|],
                         b.limit - |Selected(t.forest, turns)|);
    }
  }

  lemma FailsOtherwise(f: Forest, b: Bounds, w: World, turns: seq<Turn>)
    requires GoesOn(f, b, w, turns)
    ensures NextTurn(f, b, w, turns) != Err(NavigationLimited)
  {
    hide Line, Selected, Calls, Offers, BlocksFor, FirstOnly, Children;
  }

  lemma NotGoingOn(f: Forest, b: Bounds, w: World, turns: seq<Turn>)
    ensures !GoesOn(f, b, w, turns) ==>
              || |turns| >= |Line(f, turns)| || |Selected(f, turns)| >= b.limit || Calls(turns) >= b.calls
              || w.late(|turns|)
  {
    hide Line, Selected, Calls;
  }

  lemma EndsCases(t: Captured, q: Query, b: Bounds, w: World, turns: seq<Turn>, r: Outcome)
    requires Ends(t, q, b, w, turns, r)
    ensures GoesOn(t.forest, b, w, turns) ==>
              && NextTurn(t.forest, b, w, turns).Err? && r == Fallback(NextTurn(t.forest, b, w, turns).error)
              && r.selected == [] && r.candidates == [] && r.limited
              && r.diagnostic == Some(NextTurn(t.forest, b, w, turns).error)
    ensures !GoesOn(t.forest, b, w, turns) ==>
              && r.selected == Selected(t.forest, turns) && r.candidates == CandidatesOf(t, q, b, r.selected)
              && r.diagnostic in [None, Some(NavigationLimited)] && (r.diagnostic.Some? ==> r.limited)
              && (r.diagnostic == Some(NavigationLimited) <==> |turns| < |Line(t.forest, turns)|)
  {
    hide Line, Selected, Calls, CandidatesOf, AnyCut, AllWhole, NextTurn, GoesOn;
  }

  lemma RebuildMeansUntidy(f: Forest, b: Bounds, w: World, round: nat, parent: Option<Id>, room: nat)
    ensures TurnOf(f, b, w, round, parent, room) == Err(RequiresRebuild) ==> !Tidy(f, b.children)
  {
    TidyChildren(f, b.children, parent);
    hide Tidy, Children, Offers, BlocksFor, FirstOnly;
  }

  lemma TidyChildren(f: Forest, most: nat, parent: Option<Id>)
    ensures Tidy(f, most) ==> |Children(f, parent)| <= most && Covers(f.nodes, Children(f, parent))
  {
    hide IsLeaf;
  }

  /** On a tidy tree only nodes of the tree are ever asked about, and each of them has children. */
  lemma TidyWalk(f: Forest, b: Bounds, w: World, turns: seq<Turn>, k: nat)
    requires Played(f, b, w, turns) && Tidy(f, b.children) && k < |turns|
    ensures turns[k].parent.Some? ==> turns[k].parent.value in f.nodes && Children(f, turns[k].parent) != []
  {
    hide *;
    WalkIsFifo(f, b, w, turns, k);
    var p := turns[k].parent;
    if p.Some? {
      LineHas(f, turns, k);
      TakenIsFollowed(f, turns, p.value);
      var j := TakenFrom(turns, p.value);
      WalkIsFifo(f, b, w, turns, j);
      TidyChildren(f, b.children, turns[j].parent);
      ChildOf(f, b.children, turns[j], p.value);
    }
  }

  lemma LineHas(f: Forest, turns: seq<Turn>, k: nat)
    requires k < |Line(f, turns)|
    ensures Line(f, turns)[k] in Line(f, turns)
  {}

  lemma TakenFrom(turns: seq<Turn>, id: Id) returns (j: nat)
    requires Taken(turns, id)
    ensures j < |turns| && id in turns[j].taken
  {
    j :| 0 <= j < |turns| && id in turns[j].taken;
  }

  lemma ChildOf(f: Forest, most: nat, turn: Turn, id: Id)
    requires Tidy(f, most) && id in turn.taken && turn.taken <= turn.nominated && Among(turn.nominated, turn.offered)
    requires Among(turn.offered, Children(f, turn.parent)) && Covers(f.nodes, Children(f, turn.parent))
             && !IsLeaf(f, id)
    ensures id in f.nodes && Children(f, Some(id)) != []
  {
    assert id in turn.nominated;
    assert id in f.nodes;
    assert id in f.kids;
  }
}
