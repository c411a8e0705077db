/** Publication keeps the store's invariants, incremental or rebuilt, however many chunks it commits. */
module PublishInvariants {
  import opened Wrappers
  import opened Sequences
  import opened Records
  import opened SearchIndex
  import opened Hierarchy
  import opened HierarchyForest
  import opened HierarchyReuse
  import opened HierarchyReplan
  import opened Indexing
  import opened IndexRuns
  import opened Transactions
  import opened StoreInvariants

  // ---------------------------------------------------------------- what the read captures

  lemma {:induction false} InRangeFacts(messages: seq<Message>, from: nat, to: nat)
    ensures forall m :: m in InRange(messages, from, to) <==> m in messages && from <= m.seqNo <= to
    ensures multiset(InRange(messages, from, to)) <= multiset(messages)
  {
    if messages != [] {
      var init, last := messages[..|messages|-1], messages[|messages|-1];
      InRangeFacts(init, from, to);
      assert messages == init + [last];
    }
  }

  lemma ClashFreeNoDup(messages: seq<Message>)
    requires ClashFree(messages)
    ensures NoDup(messages)
    ensures forall a, b :: a in messages && b in messages && a.seqNo == b.seqNo ==> a == b
  {
    forall i, j | 0 <= i < j < |messages| ensures messages[i] != messages[j] && messages[i].seqNo != messages[j].seqNo {
      assert !Clashes(messages[i], messages[j]);
    }
  }

  lemma PendingFacts(messages: seq<Message>, from: nat, to: nat)
    requires ClashFree(messages)
    ensures forall m :: m in PendingMessages(messages, from, to) <==> m in messages && from <= m.seqNo <= to
    ensures var ms := PendingMessages(messages, from, to); forall i, j :: 0 <= i < j < |ms| ==>
              ms[i].seqNo < ms[j].seqNo
  {
    var key := (m: Message) => m.seqNo;
    var inside := InRange(messages, from, to);
    var ms := SortBy(key, inside);
    InRangeFacts(messages, from, to);
    SortByFacts(key, inside);
    ClashFreeNoDup(messages);
    NoDupMultiset(messages);
    NoDupMultiset(ms);
    hide ClashFree;
    forall i, j | 0 <= i < j < |ms| ensures ms[i].seqNo < ms[j].seqNo {
      assert key(ms[i]) <= key(ms[j]) && ms[i] != ms[j];
      assert ms[i] in messages && ms[j] in messages;
    }
  }

  /** `rows` are the numbers and texts of the stored messages numbered `from` to `to`, each once, ascending. */
  ghost predicate Pending(messages: seq<Message>, from: nat, to: nat, rows: seq<Row>) {
    && Ascending(rows) && RowsStored(messages, from, to, rows)
    && (forall m :: m in messages && from <= m.seqNo <= to ==> HasRowAt(rows, m.seqNo))
    && Quoted(messages, rows)
  }

  /** A row holds the text of the message it is numbered for. */
  ghost predicate Quoted(messages: seq<Message>, rows: seq<Row>) {
    forall k, m :: 0 <= k < |rows| && m in messages && m.seqNo == rows[k].seqNo ==> rows[k].text == m.text
  }

  ghost predicate RowsStored(messages: seq<Message>, from: nat, to: nat, rows: seq<Row>) {
    forall k :: 0 <= k < |rows| ==> from <= rows[k].seqNo <= to && StoredSeq(messages, rows[k].seqNo)
  }

  ghost predicate HasRowAt(rows: seq<Row>, q: nat) {
    exists k :: 0 <= k < |rows| && rows[k].seqNo == q
  }

  /** The rows are the messages one by one. */
  lemma RowAt(messages: seq<Message>, from: nat, to: nat)
    ensures var ms, rows := PendingMessages(messages, from, to), PendingRows(messages, from, to);
            |rows| == |ms| && forall k :: 0 <= k < |ms| ==> IsRowOf(rows[k], ms[k])
  {
    hide PendingMessages;
  }

  ghost predicate IsRowOf(r: Row, m: Message) {
    r.seqNo == m.seqNo && r.text == m.text
  }

  /** A row of a stored message numbered `from` to `to`. */
  ghost predicate IsPending(messages: seq<Message>, from: nat, to: nat, r: Row) {
    exists m :: m in messages && from <= m.seqNo <= to && IsRowOf(r, m)
  }

  /** An index read hands over exactly the numbers and texts of the stored messages of its range, in order. */
  lemma PendingRowsExact(messages: seq<Message>, from: nat, to: nat)
    requires ClashFree(messages)
    ensures Pending(messages, from, to, PendingRows(messages, from, to))
    ensures forall r :: r in PendingRows(messages, from, to) <==> IsPending(messages, from, to, r)
  {
    PendingFacts(messages, from, to);
    ClashFreeNoDup(messages);
    RowAt(messages, from, to);
    var ms, rows := PendingMessages(messages, from, to), PendingRows(messages, from, to);
    hide PendingMessages, PendingRows, ClashFree, NoDup;
    RowsOfAre(messages, from, to, ms, rows);
    RowsOfQuote(messages, from, to, ms, rows);
    hide *;
    PendingWhole(messages, from, to, rows);
    forall r ensures r in rows <==> IsPending(messages, from, to, r) { RowsAre(messages, from, to, ms, rows, r); }
  }

  lemma RowsOfAre(messages: seq<Message>, from: nat, to: nat, ms: seq<Message>, rows: seq<Row>)
    requires forall m :: m in ms <==> m in messages && from <= m.seqNo <= to
    requires forall i, j :: 0 <= i < j < |ms| ==> ms[i].seqNo < ms[j].seqNo
    requires |rows| == |ms| && forall k :: 0 <= k < |ms| ==> IsRowOf(rows[k], ms[k])
    ensures Ascending(rows) && RowsStored(messages, from, to, rows)
    ensures forall m :: m in messages && from <= m.seqNo <= to ==> HasRowAt(rows, m.seqNo)
  {
    forall k | 0 <= k < |rows| ensures from <= rows[k].seqNo <= to && StoredSeq(messages, rows[k].seqNo) {
      assert ms[k] in ms && IsRowOf(rows[k], ms[k]);
    }
    forall m | m in messages && from <= m.seqNo <= to ensures HasRowAt(rows, m.seqNo) {
      var k :| 0 <= k < |ms| && ms[k] == m;
      assert IsRowOf(rows[k], ms[k]);
    }
  }

  lemma RowsOfQuote(messages: seq<Message>, from: nat, to: nat, ms: seq<Message>, rows: seq<Row>)
    requires forall m :: m in ms <==> m in messages && from <= m.seqNo <= to
    requires forall a, b :: a in messages && b in messages && a.seqNo == b.seqNo ==> a == b
    requires |rows| == |ms| && forall k :: 0 <= k < |ms| ==> IsRowOf(rows[k], ms[k])
    ensures Quoted(messages, rows)
  {
    forall k, m | 0 <= k < |rows| && m in messages && m.seqNo == rows[k].seqNo ensures rows[k].text == m.text {
      assert ms[k] in ms && IsRowOf(rows[k], ms[k]);
    }
  }

  lemma PendingWhole(messages: seq<Message>, from: nat, to: nat, rows: seq<Row>)
    requires Ascending(rows) && RowsStored(messages, from, to, rows) && Quoted(messages, rows)
    requires forall m :: m in messages && from <= m.seqNo <= to ==> HasRowAt(rows, m.seqNo)
    ensures Pending(messages, from, to, rows)
  {
    hide Ascending, RowsStored, Quoted, HasRowAt;
  }

  lemma RowsAre(messages: seq<Message>, from: nat, to: nat, ms: seq<Message>, rows: seq<Row>, r: Row)
    requires forall m :: m in ms <==> m in messages && from <= m.seqNo <= to
    requires |rows| == |ms| && forall k :: 0 <= k < |ms| ==> IsRowOf(rows[k], ms[k])
    ensures r in rows <==> IsPending(messages, from, to, r)
  {
    if r in rows {
      var k :| 0 <= k < |rows| && rows[k] == r;
      assert ms[k] in ms && IsRowOf(r, ms[k]);
    }
    if IsPending(messages, from, to, r) {
      var m :| m in messages && from <= m.seqNo <= to && IsRowOf(r, m);
      var k :| 0 <= k < |ms| && ms[k] == m;
      assert IsRowOf(rows[k], m);
      assert rows[k] == r;
    }
  }

  lemma OrderedJoin(leaves: seq<Node>, rows: seq<Row>)
    requires Ordered(leaves, []) && Before(leaves, rows)
    ensures Ordered(leaves, rows)
  {}

  lemma LeavesEndAtMark(messages: seq<Message>, leaves: seq<Node>, upto: nat)
    requires Framed(messages, leaves, upto)
    ensures Ordered(leaves, []) && forall i :: 0 <= i < |leaves| ==> leaves[i].hi <= upto
  {}

  /** Where an index read starts: after the mark, or from the beginning for a rebuild. */
  function From(db: Db, rebuild: bool): nat {
    if rebuild then 1 else db.committedSeq + 1
  }

  /** The captured backlog is a sound input, and its rows are the messages to index. */
  lemma CaptureIsReady(db: Db, rebuild: bool, cfg: Settings)
    requires DbOk(db, cfg.m)
    ensures IndexRead(db, rebuild).Ok? && 2 <= cfg.m
    ensures var b := IndexRead(db, rebuild).value.backlog;
            && Ready(b, cfg) && Pending(db.messages, From(db, rebuild), db.highWater, b.rows)
            && b.forest == (if rebuild then NoForest else db.forest)
  {
    var b := IndexRead(db, rebuild).value.backlog;
    RowsClashFree(db, cfg.m);
    hide *;
    DbParts(db, cfg.m);
    SettledFanout(db.forest, cfg.m);
    PendingRowsExact(db.messages, From(db, rebuild), db.highWater);
    CaptureParts(db, rebuild);
    RowsAscend(db.messages, From(db, rebuild), db.highWater, b.rows);
    LeavesEndAtMark(db.messages, db.forest.leaves, db.committedSeq);
    if rebuild {
      EmptySettled(cfg.m);
      NothingOrdered(b.rows);
      NothingFiled(b.nextId);
    } else {
      RowsAfter(db.messages, db.forest.leaves, db.committedSeq, db.highWater, b.rows);
      OrderedJoin(db.forest.leaves, b.rows);
    }
    ReadyWhole(b, cfg);
  }

  lemma RowsClashFree(db: Db, m: nat)
    requires DbOk(db, m)
    ensures ClashFree(db.messages)
  {}

  lemma SettledFanout(f: Forest, m: nat)
    requires Settled(f, m)
    ensures 2 <= m
  {}

  lemma NothingOrdered(rows: seq<Row>)
    ensures Ordered(NoForest.leaves, rows)
  {}

  lemma NothingFiled(next: Id)
    ensures forall id :: id in NoForest.nodes ==> id < next
  {}

  lemma RowsAfter(messages: seq<Message>, leaves: seq<Node>, mark: nat, to: nat, rows: seq<Row>)
    requires Pending(messages, mark + 1, to, rows) && forall i :: 0 <= i < |leaves| ==> leaves[i].hi <= mark
    ensures Before(leaves, rows)
  {}

  lemma RowsAscend(messages: seq<Message>, from: nat, to: nat, rows: seq<Row>)
    requires Pending(messages, from, to, rows)
    ensures Ascending(rows) && RowsStored(messages, from, to, rows)
    ensures forall m :: m in messages && from <= m.seqNo <= to ==> HasRowAt(rows, m.seqNo)
  {}

  lemma CaptureParts(db: Db, rebuild: bool)
    requires db.historyRevision == db.searchRevision
    ensures IndexRead(db, rebuild).Ok?
    ensures var c := IndexRead(db, rebuild).value;
            && c.backlog.rows == PendingRows(db.messages, From(db, rebuild), db.highWater)
            && c.backlog.forest == (if rebuild then NoForest else db.forest) && c.backlog.nextId == db.nextNode
            && c.backlog.revision == db.indexRevision && c.historyRevision == db.historyRevision
               && c.indexRevision == db.indexRevision
               && c.generation == db.generation
  {
    hide PendingRows;
  }

  // ---------------------------------------------------------------- what the publication commits

  /** The proposal an index call publishes after committing `count > 0` chunks. */
  function ProposalOf(c: Capture, cfg: Settings, count: nat, b2: Backlog): Proposal
    requires 0 < count <= |Chunks(c.backlog.rows, cfg.target)| && Nonempty(Chunks(c.backlog.rows, cfg.target))
  {
    Proposal(c.historyRevision, c.indexRevision, c.generation, b2.forest,
             Hi(Chunks(c.backlog.rows, cfg.target)[count-1]), b2.nextId)
  }

  ghost predicate SameSpans(a: seq<Node>, b: seq<Node>) {
    |a| == |b| && forall i :: 0 <= i < |a| ==> a[i].lo == b[i].lo && a[i].hi == b[i].hi
  }

  /**
   * The old leaves plus the first `count` chunks are framed by the stored messages, and they cover them
   * up to the new mark exactly when the old leaves covered everything before the captured rows.
   */
  lemma ExtendedPartition(messages: seq<Message>, b: Backlog, cfg: Settings, from: nat, to: nat, count: nat)
    requires Ready(b, cfg) && Pending(messages, from, to, b.rows) && 0 < count <= |NewLeaves(b, cfg)|
    requires SpanEnds(messages, b.forest.leaves) && SeqsWithin(messages, to)
    ensures count <= |Chunks(b.rows, cfg.target)| && Nonempty(Chunks(b.rows, cfg.target))
    ensures Hi(Chunks(b.rows, cfg.target)[count-1]) <= to
    ensures Framed(messages, CommittedLeaves(b, cfg, count), Hi(Chunks(b.rows, cfg.target)[count-1]))
    ensures AllSpanned(messages, CommittedLeaves(b, cfg, count), Hi(Chunks(b.rows, cfg.target)[count-1])) <==>
            SpannedBefore(messages, b.forest.leaves, from)
  {
    var chunks := Chunks(b.rows, cfg.target);
    var leaves := CommittedLeaves(b, cfg, count);
    hide *;
    ReadyParts(b, cfg);
    NewLeafFacts(b, cfg);
    RowsAscend(messages, from, to, b.rows);
    CommitRows(b, cfg, count);
    DropRows(leaves, Flatten(chunks[count..]));
    NewEnds(messages, b, cfg, from, to, count);
    if SpannedBefore(messages, b.forest.leaves, from) { NewSpans(messages, b, cfg, from, to, count); }
    if AllSpanned(messages, leaves, Hi(chunks[count-1])) { OldSpans(messages, b, cfg, from, to, count); }
    LastLeaf(b, cfg, count);
    FrameWhole(messages, leaves, Hi(chunks[count-1]));
  }

  /** Every stored message numbered before `from` lies in a leaf. */
  ghost predicate SpannedBefore(messages: seq<Message>, leaves: seq<Node>, from: nat) {
    forall m :: m in messages && m.seqNo < from ==> Spanned(leaves, m.seqNo)
  }

  lemma DropRows(leaves: seq<Node>, rows: seq<Row>)
    requires Ordered(leaves, rows)
    ensures Ordered(leaves, [])
  {}

  lemma FrameWhole(messages: seq<Message>, leaves: seq<Node>, upto: nat)
    requires Ordered(leaves, []) && SpanEnds(messages, leaves)
    requires leaves != [] && leaves[|leaves|-1].hi == upto
    ensures Framed(messages, leaves, upto)
  {}

  lemma LastLeaf(b: Backlog, cfg: Settings, count: nat)
    requires 0 < count <= |NewLeaves(b, cfg)| <= |Chunks(b.rows, cfg.target)|
             && Chunks(b.rows, cfg.target)[count-1] != []
    ensures CommittedLeaves(b, cfg, count) != []
    ensures CommittedLeaves(b, cfg, count)[|CommittedLeaves(b, cfg, count)|-1].hi ==
              Hi(Chunks(b.rows, cfg.target)[count-1])
  {
    NewLeafFacts(b, cfg);
    hide NewLeaves, Chunks, Flatten, Lo, Hi;
  }

  lemma NewLeafSpan(b: Backlog, cfg: Settings, count: nat, i: nat)
    requires Ascending(b.rows) && i < count <= |NewLeaves(b, cfg)|
    ensures i < |Chunks(b.rows, cfg.target)| && Chunks(b.rows, cfg.target)[i] != []
    ensures var n := CommittedLeaves(b, cfg, count)[|b.forest.leaves| + i];
            && n.lo == Lo(Chunks(b.rows, cfg.target)[i]) && n.hi == Hi(Chunks(b.rows, cfg.target)[i])
            && HasRowAt(b.rows, n.lo) && HasRowAt(b.rows, n.hi)
  {
    var chunks := Chunks(b.rows, cfg.target);
    NewLeafFacts(b, cfg);
    hide NewLeaves, Chunks, Flatten, Lo, Hi, Start, Ascending;
    ChunkSpan(chunks, i);
    assert b.rows[Start(chunks, i)].seqNo == Lo(chunks[i]);
    StartMonotone(chunks, i, i + 1);
    assert b.rows[Start(chunks, i + 1) - 1].seqNo == Hi(chunks[i]);
  }

  lemma RowStored(messages: seq<Message>, from: nat, to: nat, rows: seq<Row>, q: nat)
    requires RowsStored(messages, from, to, rows) && HasRowAt(rows, q)
    ensures StoredSeq(messages, q) && q <= to
  {}

  lemma NewEnds(messages: seq<Message>, b: Backlog, cfg: Settings, from: nat, to: nat, count: nat)
    requires Ascending(b.rows) && RowsStored(messages, from, to, b.rows) && 0 < count <= |NewLeaves(b, cfg)|
    requires SpanEnds(messages, b.forest.leaves)
    ensures SpanEnds(messages, CommittedLeaves(b, cfg, count))
    ensures count <= |Chunks(b.rows, cfg.target)| && Chunks(b.rows, cfg.target)[count-1] != []
    ensures Hi(Chunks(b.rows, cfg.target)[count-1]) <= to
  {
    var leaves, n := CommittedLeaves(b, cfg, count), |b.forest.leaves|;
    NewLeafFacts(b, cfg);
    hide NewLeaves, Chunks, RowsStored, HasRowAt, StoredSeq, Ascending, Lo, Hi, Flatten;
    forall i | 0 <= i < |leaves| ensures StoredSeq(messages, leaves[i].lo) && StoredSeq(messages, leaves[i].hi) {
      if i >= n {
        NewLeafSpan(b, cfg, count, i - n);
        RowStored(messages, from, to, b.rows, leaves[i].lo);
        RowStored(messages, from, to, b.rows, leaves[i].hi);
      }
    }
    NewLeafSpan(b, cfg, count, count - 1);
    RowStored(messages, from, to, b.rows, leaves[n + (count - 1)].hi);
  }

  lemma SpannedMore(older: seq<Node>, newer: seq<Node>, q: nat)
    requires Spanned(older, q)
    ensures Spanned(older + newer, q)
  {
    var i :| 0 <= i < |older| && older[i].lo <= q <= older[i].hi;
    assert (older + newer)[i] == older[i];
  }

  /** A row at or before the end of chunk `count - 1` lies in one of the first `count` chunks. */
  lemma RowInChunks(chunks: seq<seq<Row>>, count: nat, k: nat) returns (i: nat)
    requires 0 < count <= |chunks| && Nonempty(chunks) && Ascending(Flatten(chunks)) && k < |Flatten(chunks)|
    requires Flatten(chunks)[k].seqNo <= Hi(chunks[count-1])
    ensures i < count && Lo(chunks[i]) <= Flatten(chunks)[k].seqNo <= Hi(chunks[i])
  {
    ChunkSpan(chunks, count - 1);
    assert k < Start(chunks, count);
    hide Flatten, Ascending, Start, Lo, Hi;
    i := RowInSpan(chunks, count, k);
  }

  lemma NewSpans(messages: seq<Message>, b: Backlog, cfg: Settings, from: nat, to: nat, count: nat)
    requires Ascending(b.rows) && 0 < count <= |NewLeaves(b, cfg)| && SeqsWithin(messages, to)
    requires forall m :: m in messages && from <= m.seqNo <= to ==> HasRowAt(b.rows, m.seqNo)
    requires SpannedBefore(messages, b.forest.leaves, from)
    ensures count <= |Chunks(b.rows, cfg.target)| && Nonempty(Chunks(b.rows, cfg.target))
    ensures AllSpanned(messages, CommittedLeaves(b, cfg, count), Hi(Chunks(b.rows, cfg.target)[count-1]))
  {
    var chunks, leaves, n := Chunks(b.rows, cfg.target), CommittedLeaves(b, cfg, count), |b.forest.leaves|;
    NewLeafFacts(b, cfg);
    assert leaves == b.forest.leaves + NewLeaves(b, cfg)[..count];
    hide NewLeaves, Chunks, Flatten, Ascending, CommittedLeaves, Nonempty, Lo, Hi, Spanned;
    forall m | m in messages && m.seqNo <= Hi(chunks[count-1]) ensures Spanned(leaves, m.seqNo) {
      if m.seqNo < from {
        SpannedMore(b.forest.leaves, NewLeaves(b, cfg)[..count], m.seqNo);
      } else {
        var k :| 0 <= k < |b.rows| && b.rows[k].seqNo == m.seqNo;
        var i := RowInChunks(chunks, count, k);
        NewLeafSpan(b, cfg, count, i);
        SpannedAt(leaves, n + i, m.seqNo);
      }
    }
  }

  /** New leaves begin at captured rows, so what they span was not stored before those. */
  lemma OldSpans(messages: seq<Message>, b: Backlog, cfg: Settings, from: nat, to: nat, count: nat)
    requires Ascending(b.rows) && RowsStored(messages, from, to, b.rows) && 0 < count <= |NewLeaves(b, cfg)|
    requires count <= |Chunks(b.rows, cfg.target)| && Chunks(b.rows, cfg.target)[count-1] != []
    requires AllSpanned(messages, CommittedLeaves(b, cfg, count), Hi(Chunks(b.rows, cfg.target)[count-1]))
    ensures SpannedBefore(messages, b.forest.leaves, from)
  {
    var chunks, leaves, n := Chunks(b.rows, cfg.target), CommittedLeaves(b, cfg, count), |b.forest.leaves|;
    NewLeafFacts(b, cfg);
    assert leaves == b.forest.leaves + NewLeaves(b, cfg)[..count];
    NewLeafSpan(b, cfg, count, count - 1);
    RowFrom(messages, from, to, b.rows, leaves[n + (count - 1)].hi);
    hide NewLeaves, Chunks, Flatten, Ascending, RowsStored, HasRowAt, CommittedLeaves, Nonempty, Lo, Hi;
    forall m | m in messages && m.seqNo < from ensures Spanned(b.forest.leaves, m.seqNo) {
      assert Spanned(leaves, m.seqNo);
      var i :| 0 <= i < |leaves| && leaves[i].lo <= m.seqNo <= leaves[i].hi;
      if i >= n {
        NewLeafSpan(b, cfg, count, i - n);
        RowFrom(messages, from, to, b.rows, leaves[n + (i - n)].lo);
      }
    }
  }

  lemma RowFrom(messages: seq<Message>, from: nat, to: nat, rows: seq<Row>, q: nat)
    requires RowsStored(messages, from, to, rows) && HasRowAt(rows, q)
    ensures from <= q
  {}

  lemma SpannedAt(leaves: seq<Node>, i: nat, q: nat)
    requires i < |leaves| && leaves[i].lo <= q <= leaves[i].hi
    ensures Spanned(leaves, q)
  {}

  lemma SpannedSame(a: seq<Node>, b: seq<Node>, q: nat)
    requires SameSpans(a, b) && Spanned(a, q)
    ensures Spanned(b, q)
  {
    var i :| 0 <= i < |a| && a[i].lo <= q <= a[i].hi;
    SpannedAt(b, i, q);
  }

  lemma EndsSame(messages: seq<Message>, a: seq<Node>, b: seq<Node>)
    requires SpanEnds(messages, a) && SameSpans(a, b)
    ensures SpanEnds(messages, b)
  {
    hide StoredSeq;
    forall i | 0 <= i < |b| ensures StoredSeq(messages, b[i].lo) && StoredSeq(messages, b[i].hi) {
      assert StoredSeq(messages, a[i].lo) && StoredSeq(messages, a[i].hi);
    }
  }

  lemma OrderSame(a: seq<Node>, b: seq<Node>)
    requires Ordered(a, []) && SameSpans(a, b)
    ensures Ordered(b, [])
  {}

  lemma AllSpannedSame(messages: seq<Message>, a: seq<Node>, b: seq<Node>, upto: nat)
    requires AllSpanned(messages, a, upto) && SameSpans(a, b)
    ensures AllSpanned(messages, b, upto)
  {
    hide SameSpans, Spanned;
    forall m | m in messages && m.seqNo <= upto ensures Spanned(b, m.seqNo) {
      SpannedSame(a, b, m.seqNo);
    }
  }

  lemma FrameBySpans(messages: seq<Message>, a: seq<Node>, b: seq<Node>, upto: nat)
    requires Framed(messages, a, upto) && SameSpans(a, b)
    ensures Framed(messages, b, upto)
  {
    EndsSame(messages, a, b);
    OrderSame(a, b);
    hide Ordered, SpanEnds;
  }

  lemma SpansBothWays(a: seq<Node>, b: seq<Node>)
    requires SameSpans(a, b)
    ensures SameSpans(b, a)
  {}

  /** A read starts where the tree it extends ends: at the mark, or at the beginning for a rebuild. */
  lemma ReadStartsAtTree(db: Db, rebuild: bool)
    requires Framed(db.messages, db.forest.leaves, db.committedSeq) && SeqsWithin(db.messages, db.highWater)
    ensures var forest := if rebuild then NoForest else db.forest;
            && SpanEnds(db.messages, forest.leaves)
            && (SpannedBefore(db.messages, forest.leaves, From(db, rebuild)) <==> rebuild || Unbroken(db))
  {
    hide Spanned, Ordered;
  }

  /**
   * A publication whose input was captured from this very state replaces the tree, incremental or
   * rebuilt.  The new spans partition the stored messages up to the new mark if it was a rebuild, or if
   * the old spans did up to the old mark.
   */
  lemma PublishKeepsOk(db: Db, rebuild: bool, cfg: Settings, families: Families, count: nat, titled: map<Id, Node>,
                       b2: Backlog)
    requires DbOk(db, cfg.m) && 2 <= cfg.m && IndexRead(db, rebuild).Ok? && count > 0
    requires Commits(IndexRead(db, rebuild).value.backlog, cfg, families, count, titled, b2)
    ensures var c := IndexRead(db, rebuild).value;
            && count <= |Chunks(c.backlog.rows, cfg.target)| && Nonempty(Chunks(c.backlog.rows, cfg.target))
            && Publish(db, ProposalOf(c, cfg, count, b2)).Ok?
            && DbOk(Publish(db, ProposalOf(c, cfg, count, b2)).value, cfg.m)
            && (Unbroken(Publish(db, ProposalOf(c, cfg, count, b2)).value) <==> rebuild || Unbroken(db))
  {
    var c := IndexRead(db, rebuild).value;
    var b := c.backlog;
    hide *;
    DbParts(db, cfg.m);
    CaptureIsReady(db, rebuild, cfg);
    ReadStartsAtTree(db, rebuild);
    CommitParts(b, cfg, families, count, titled, b2);
    ExtendedPartition(db.messages, b, cfg, From(db, rebuild), db.highWater, count);
    CommitSettles(b, cfg, families, count, titled, b2);
    CommitIds(b, cfg, families, count, titled, b2);
    var leaves, mark := CommittedLeaves(b, cfg, count), Hi(Chunks(b.rows, cfg.target)[count-1]);
    SpansSame(leaves, b2.forest.leaves);
    SpansBothWays(leaves, b2.forest.leaves);
    FrameBySpans(db.messages, leaves, b2.forest.leaves, mark);
    if AllSpanned(db.messages, leaves, mark) { AllSpannedSame(db.messages, leaves, b2.forest.leaves, mark); }
    if AllSpanned(db.messages, b2.forest.leaves, mark) { AllSpannedSame(db.messages, b2.forest.leaves, leaves, mark); }
    ProposalParts(db, rebuild, cfg, count, b2);
    FreshProposalOk(db, ProposalOf(c, cfg, count, b2), cfg.m);
  }

  /** The proposal is what an index call makes of this capture. */
  ghost predicate Planned(c: Capture, cfg: Settings, p: Proposal) {
    exists families, count, titled, planned :: PlannedAs(c, cfg, p, families, count, titled, planned)
  }

  ghost predicate PlannedAs(c: Capture, cfg: Settings, p: Proposal, families: Families, count: nat,
                            titled: map<Id, Node>, planned: Backlog)
  {
    && 2 <= cfg.m && Commits(c.backlog, cfg, families, count, titled, planned)
    && 0 < count <= |Chunks(c.backlog.rows, cfg.target)| && Nonempty(Chunks(c.backlog.rows, cfg.target))
    && p == ProposalOf(c, cfg, count, planned)
  }

  /** A proposal made from what is captured now is accepted now, and keeps the store sound. */
  lemma PlannedKeepsOk(db: Db, rebuild: bool, cfg: Settings, p: Proposal)
    requires DbOk(db, cfg.m) && IndexRead(db, rebuild).Ok? && Planned(IndexRead(db, rebuild).value, cfg, p)
    ensures Publish(db, p).Ok? && DbOk(Publish(db, p).value, cfg.m)
    ensures Unbroken(Publish(db, p).value) <==> rebuild || Unbroken(db)
  {
    hide DbOk, IndexRead, Publish, Commits, Unbroken;
    var families, count, titled, planned :|
      PlannedAs(IndexRead(db, rebuild).value, cfg, p, families, count, titled, planned);
    PublishKeepsOk(db, rebuild, cfg, families, count, titled, planned);
  }

  lemma SpansSame(a: seq<Node>, b: seq<Node>)
    requires |a| == |b| && forall i :: 0 <= i < |a| ==> b[i].lo == a[i].lo && b[i].hi == a[i].hi
    ensures SameSpans(a, b)
  {}

  lemma ProposalParts(db: Db, rebuild: bool, cfg: Settings, count: nat, b2: Backlog)
    requires IndexRead(db, rebuild).Ok?
    requires var rows := IndexRead(db, rebuild).value.backlog.rows;
             0 < count <= |Chunks(rows, cfg.target)| && Nonempty(Chunks(rows, cfg.target))
    ensures var p := ProposalOf(IndexRead(db, rebuild).value, cfg, count, b2);
            && p.historyRevision == db.historyRevision && p.indexRevision == db.indexRevision
               && p.generation == db.generation
            && p.forest == b2.forest && p.nextNode == b2.nextId
            && p.lastSeq == Hi(Chunks(IndexRead(db, rebuild).value.backlog.rows, cfg.target)[count-1])
  {
    hide Hi, Chunks, Nonempty, PendingRows;
  }

  lemma FreshProposalOk(db: Db, p: Proposal, m: nat)
    requires DbOk(db, m)
    requires p.historyRevision == db.historyRevision && p.indexRevision == db.indexRevision
             && p.generation == db.generation
    requires Settled(p.forest, m) && forall id :: id in p.forest.nodes ==> id < p.nextNode
    requires Framed(db.messages, p.forest.leaves, p.lastSeq) && p.lastSeq <= db.highWater
    ensures Publish(db, p).Ok? && DbOk(Publish(db, p).value, m)
    ensures Unbroken(Publish(db, p).value) <==> AllSpanned(db.messages, p.forest.leaves, p.lastSeq)
  {
    hide Settled, Framed, AllSpanned, ClashFree, InStep, ReceiptsStored, ReceiptsDisjoint, SeqsWithin, OneHistory;
    var after := Publish(db, p).value;
    assert TreeOk(after, m);
    assert RowsOk(after);
    assert ReceiptsStored(after) by { ReceiptsSame(db, after); }
  }

  lemma ReceiptsSame(db: Db, after: Db)
    requires ReceiptsStored(db) && after.receipts == db.receipts && after.messages == db.messages
    ensures ReceiptsStored(after)
  {}
}
