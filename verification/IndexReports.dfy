/**
 * One index() call against a store nobody else is using, with the report it returns
 * (packages/python/src/cci/index.py).
 */
module IndexReports {
  import opened Wrappers
  import opened Sequences
  import opened Records
  import opened Hierarchy
  import opened HierarchyPlanner
  import opened HierarchyReplan
  import opened Indexing
  import opened IndexRuns
  import opened IndexCalls
  import opened IndexAnswers
  import opened Transactions
  import opened StoreInvariants
  import opened PublishInvariants

  /** The sequence numbers from `first` to `last`, or none. */
  datatype Coverage = Nothing | Numbers(first: nat, last: nat)

  datatype Report = Report(committed: Coverage, pending: Coverage, calls: nat, status: Status)

  predicate Holds(c: Coverage, q: nat) {
    c.Numbers? && c.first <= q <= c.last
  }

  function Upto(mark: nat): Coverage {
    if mark > 0 then Numbers(1, mark) else Nothing
  }

  /** Exactly the numbers from one to the mark. */
  ghost predicate IsUpto(c: Coverage, mark: nat) {
    forall q: nat :: Holds(c, q) <==> 1 <= q <= mark
  }

  lemma UptoIs(mark: nat)
    ensures IsUpto(Upto(mark), mark)
  {}

  function Captured(db: Db, rebuild: bool): seq<Row> {
    PendingRows(db.messages, From(db, rebuild), db.highWater)
  }

  /** Whether the read finds the range of numbers to index empty, and reports at once. */
  predicate UpToDate(db: Db, rebuild: bool) {
    From(db, rebuild) > db.highWater
  }

  /** Nothing is left after the `n`-th of some ascending rows exactly when none is numbered past it. */
  lemma LeftAfter(rows: seq<Row>, n: nat)
    requires Ascending(rows) && 0 < n <= |rows|
    ensures rows[n..] == [] <==> forall k :: 0 <= k < |rows| ==> rows[k].seqNo <= rows[n-1].seqNo
  {
    if n < |rows| { assert rows[n].seqNo > rows[n-1].seqNo; }
  }

  /** Nothing is left after the chunks committed exactly when no row is numbered past the last of them. */
  lemma RestIsAfter(chunks: seq<seq<Row>>, count: nat)
    requires 0 < count <= |chunks| && Nonempty(chunks) && Ascending(Flatten(chunks))
    ensures Flatten(chunks[count..]) == [] <==>
            forall k :: 0 <= k < |Flatten(chunks)| ==> Flatten(chunks)[k].seqNo <= Hi(chunks[count-1])
  {
    assert chunks[count-1] != [];
    hide *;
    ChunkSpan(chunks, count - 1);
    StartIs(chunks, count);
    StartAtLeast(chunks, count);
    LeftAfter(Flatten(chunks), Start(chunks, count));
  }

  lemma StartIs(chunks: seq<seq<Row>>, count: nat)
    requires count <= |chunks|
    ensures Start(chunks, count) <= |Flatten(chunks)|
            && Flatten(chunks[count..]) == Flatten(chunks)[Start(chunks, count)..]
  {
    assert chunks == chunks[..count] + chunks[count..];
    FlattenSplit(chunks[..count], chunks[count..]);
  }

  /**
   * What a report says of the call from `db` to `db2`.  The committed coverage ends at the index mark;
   * the pending coverage is what the call read and did not index.  The status is complete exactly when
   * the range of pending numbers was empty to begin with, or something was indexed and no message was left.
   */
  ghost predicate Reported(db: Db, rebuild: bool, db2: Db, r: Report) {
    && IsUpto(r.committed, db2.committedSeq)
    && (forall q: nat :: From(db, rebuild) <= q <= db.highWater && (db2 == db || q > db2.committedSeq) <==>
          Holds(r.pending, q))
    && (r.status == Complete <==>
          UpToDate(db, rebuild) || (db2 != db && NoneAbove(db, rebuild, db2.committedSeq)))
    && (r.calls == 0 <==> db2 == db) && (NoneAbove(db, rebuild, 0) ==> db2 == db)
  }

  /** Every stored message of the range to index is numbered `mark` at most. */
  ghost predicate NoneAbove(db: Db, rebuild: bool, mark: nat) {
    forall m :: m in db.messages && From(db, rebuild) <= m.seqNo <= db.highWater ==> m.seqNo <= mark
  }

  /** The messages of the range past a mark are the captured rows past it. */
  lemma NoneAboveIs(db: Db, rebuild: bool, rows: seq<Row>, mark: nat)
    requires Pending(db.messages, From(db, rebuild), db.highWater, rows)
    ensures NoneAbove(db, rebuild, mark) <==> forall k :: 0 <= k < |rows| ==> rows[k].seqNo <= mark
    ensures NoneAbove(db, rebuild, 0) <==> rows == []
  {
    hide Quoted, Ascending;
    forall k | 0 <= k < |rows| && NoneAbove(db, rebuild, mark) ensures rows[k].seqNo <= mark {
      assert StoredSeq(db.messages, rows[k].seqNo);
    }
    forall m | m in db.messages && From(db, rebuild) <= m.seqNo <= db.highWater ensures HasRowAt(rows, m.seqNo) {}
    if rows != [] { assert StoredSeq(db.messages, rows[0].seqNo) && rows[0].seqNo >= From(db, rebuild); }
  }

  /** A call replaces the tree, its marks and its identifier supply, and nothing else. */
  ghost predicate TreeOnly(db: Db, db2: Db) {
    db2 == db.(forest := db2.forest, indexRevision := db2.indexRevision, committedSeq := db2.committedSeq,
               nextNode := db2.nextNode)
  }

  /** What the tree of a call says: old nodes what they said, new ones what the model answered about the store. */
  ghost predicate Says(db: Db, rebuild: bool, db2: Db, readRows: seq<Row> -> Answer,
                       readChildren: seq<(Id, string)> -> Answer) {
    var before := if rebuild then map[] else db.forest.nodes;
    && TreeOnly(db, db2) && ContentKept(before, db2.forest.nodes, db.nextNode)
    && NewSay(db.messages, before, db2.forest, readRows, readChildren, db2.indexRevision)
  }

  lemma ReportedNone(db: Db, rebuild: bool, r: Report)
    requires From(db, rebuild) <= db.highWater
    requires r == Report(Upto(db.committedSeq), Numbers(From(db, rebuild), db.highWater), 0, Partial)
    ensures Reported(db, rebuild, db, r)
  {
    UptoIs(db.committedSeq);
    hide From, IsUpto, NoneAbove;
  }

  lemma ReportedSome(db: Db, rebuild: bool, db2: Db, left: seq<Row>, r: Report)
    requires From(db, rebuild) <= db.highWater && db2 != db && db2.committedSeq + 1 >= From(db, rebuild) && r.calls > 0
    requires (left == [] <==> NoneAbove(db, rebuild, db2.committedSeq)) && !NoneAbove(db, rebuild, 0)
    requires r.committed == Upto(db2.committedSeq) && (r.status == Complete <==> left == [])
    requires r.pending ==
             if db2.committedSeq >= db.highWater then Nothing else Numbers(db2.committedSeq + 1, db.highWater)
    ensures Reported(db, rebuild, db2, r)
  {
    UptoIs(db2.committedSeq);
    hide From, NoneAbove, IsUpto;
  }

  lemma CapturedIs(db: Db, rebuild: bool)
    ensures Captured(db, rebuild) == PendingRows(db.messages, From(db, rebuild), db.highWater)
    ensures UpToDate(db, rebuild) <==> From(db, rebuild) > db.highWater
  {
    hide PendingRows, From;
  }

  lemma CaptureTitled(db: Db, rebuild: bool, c: Capture)
    requires AllTitled(db.forest.nodes) && c.backlog.forest == (if rebuild then NoForest else db.forest)
    ensures AllTitled(c.backlog.forest.nodes)
    ensures c.backlog.forest.nodes == (if rebuild then map[] else db.forest.nodes)
  {}

  lemma StartsPending(db: Db, rebuild: bool)
    ensures UpToDate(db, rebuild) || From(db, rebuild) <= db.highWater
  {}

  /** The store a committing call leaves. */
  lemma PublishedRows(db: Db, rebuild: bool, cfg: Settings, families: Families, count: nat, titled: map<Id, Node>,
                      planned: Backlog)
    requires DbOk(db, cfg.m) && 2 <= cfg.m && IndexRead(db, rebuild).Ok? && count > 0
    requires Commits(IndexRead(db, rebuild).value.backlog, cfg, families, count, titled, planned)
    requires var rows := IndexRead(db, rebuild).value.backlog.rows;
             count <= |Chunks(rows, cfg.target)| && Nonempty(Chunks(rows, cfg.target))
    requires Publish(db, ProposalOf(IndexRead(db, rebuild).value, cfg, count, planned)).Ok?
    ensures var c := IndexRead(db, rebuild).value;
            var db2 := Publish(db, ProposalOf(c, cfg, count, planned)).value;
            && db2.committedSeq == ProposalOf(c, cfg, count, planned).lastSeq && db2 != db
            && db2.forest.nodes == planned.forest.nodes
            && (planned.rows == [] <==> NoneAbove(db, rebuild, db2.committedSeq)) && !NoneAbove(db, rebuild, 0)
            && db2.committedSeq >= From(db, rebuild)
  {
    var c := IndexRead(db, rebuild).value;
    var chunks := Chunks(c.backlog.rows, cfg.target);
    hide *;
    CaptureIsReady(db, rebuild, cfg);
    CaptureParts2(db, rebuild);
    ReadyParts(c.backlog, cfg);
    CommitParts(c.backlog, cfg, families, count, titled, planned);
    ChunksAreGreedy(c.backlog.rows, cfg.target);
    RestIsAfter(chunks, count);
    ProposalParts(db, rebuild, cfg, count, planned);
    Replaced(db, ProposalOf(c, cfg, count, planned));
    CapturedIs(db, rebuild);
    SomeRows(chunks, c.backlog.rows, count);
    NoneAboveIs(db, rebuild, c.backlog.rows, Hi(chunks[count-1]));
    MarkIsLater(db.messages, From(db, rebuild), db.highWater, c.backlog.rows, chunks, count);
  }

  /** The new mark is the number of a captured row. */
  lemma MarkIsLater(messages: seq<Message>, from: nat, to: nat, rows: seq<Row>, chunks: seq<seq<Row>>, count: nat)
    requires Pending(messages, from, to, rows) && 0 < count <= |chunks| && Nonempty(chunks) && Flatten(chunks) == rows
    ensures from <= Hi(chunks[count-1])
  {
    assert chunks[count-1] != [];
    ChunkSpan(chunks, count - 1);
    hide Flatten, Hi, Start, StoredSeq;
  }

  lemma CaptureParts2(db: Db, rebuild: bool)
    requires IndexRead(db, rebuild).Ok?
    ensures IndexRead(db, rebuild).value.backlog.rows == Captured(db, rebuild)
  {
    hide PendingRows;
  }

  lemma Replaced(db: Db, p: Proposal)
    requires Publish(db, p).Ok?
    ensures Publish(db, p).value.committedSeq == p.lastSeq && Publish(db, p).value != db
    ensures Publish(db, p).value.forest == p.forest
  {}

  lemma SomeRows(chunks: seq<seq<Row>>, rows: seq<Row>, count: nat)
    requires 0 < count <= |chunks| && Nonempty(chunks) && Flatten(chunks) == rows
    ensures rows != []
  {
    assert chunks[0] != [];
  }

  /** What the planned tree says is what the published one says. */
  lemma PublishedSays(db: Db, rebuild: bool, cfg: Settings, count: nat, planned: Backlog,
                      readRows: seq<Row> -> Answer, readChildren: seq<(Id, string)> -> Answer)
    requires IndexRead(db, rebuild).Ok?
    requires var rows := IndexRead(db, rebuild).value.backlog.rows;
             0 < count <= |Chunks(rows, cfg.target)| && Nonempty(Chunks(rows, cfg.target))
    requires var c := IndexRead(db, rebuild).value;
             && c.backlog.nextId == db.nextNode
             && NewSay(db.messages, c.backlog.forest.nodes, planned.forest, readRows, readChildren,
                       db.indexRevision + 1)
             && ContentKept(c.backlog.forest.nodes, planned.forest.nodes, c.backlog.nextId)
             && c.backlog.forest.nodes == (if rebuild then map[] else db.forest.nodes)
    requires Publish(db, ProposalOf(IndexRead(db, rebuild).value, cfg, count, planned)).Ok?
    ensures Says(db, rebuild, Publish(db, ProposalOf(IndexRead(db, rebuild).value, cfg, count, planned)).value,
                 readRows, readChildren)
  {
    hide NewSay, ContentKept, IndexRead, Chunks, Hi, Nonempty;
  }

  /** The call once some numbers are pending: propose, and publish what fits the limit. */
  method IndexPending(db: Db, rebuild: bool, previous: seq<Node>, cfg: Settings,
                      readRows: seq<Row> -> Answer, readChildren: seq<(Id, string)> -> Answer)
    returns (r: Report, db2: Db)
    requires DbOk(db, cfg.m) && AllTitled(db.forest.nodes) && From(db, rebuild) <= db.highWater
    requires Lists(previous, if rebuild then map[] else db.forest.nodes)
    ensures DbOk(db2, cfg.m) && AllTitled(db2.forest.nodes) && r.calls <= cfg.limit && Reported(db, rebuild, db2, r)
    ensures db2 != db ==> (Unbroken(db2) <==> rebuild || Unbroken(db))
    ensures db2 != db ==> Says(db, rebuild, db2, readRows, readChildren)
  {
    hide *;
    CaptureIsReady(db, rebuild, cfg);
    var c := IndexRead(db, rebuild).value;
    CaptureTitled(db, rebuild, c);
    var planned, count, asked, status;
    ghost var families, titled;
    planned, count, asked, status, families, titled := Propose(c.backlog, previous, cfg, readRows, readChildren);
    if count == 0 {
      r, db2 := Report(Upto(db.committedSeq), Numbers(From(db, rebuild), db.highWater), 0, Partial), db;
      ReportedNone(db, rebuild, r);
      return;
    }
    PublishKeepsOk(db, rebuild, cfg, families, count, titled, planned);
    PublishedRows(db, rebuild, cfg, families, count, titled, planned);
    var p := ProposalOf(c, cfg, count, planned);
    db2 := Publish(db, p).value;
    CallSays(db.messages, From(db, rebuild), db.highWater, c.backlog, cfg, families, count, titled, planned, readRows,
             readChildren);
    CommitKeepsContent(c.backlog, cfg, families, count, titled, planned);
    DbParts(db, cfg.m);
    CaptureParts(db, rebuild);
    PublishedSays(db, rebuild, cfg, count, planned, readRows, readChildren);
    r := Report(Upto(p.lastSeq),
                if p.lastSeq >= db.highWater then Nothing else Numbers(p.lastSeq + 1, db.highWater), asked, status);
    ReportedSome(db, rebuild, db2, planned.rows, r);
  }

  /**
   * One conflict-free index() call.  It keeps the store's invariants, asks the model nothing when no
   * stored message is waiting, never asks more than the limit, and reports what it did.  If it indexes
   * anything, each new leaf is titled by the model's answer for the stored texts of its span, each new
   * parent by its answer for its children's titles and summaries, and nothing else of the store changes.
   */
  method IndexOnce(db: Db, rebuild: bool, previous: seq<Node>, cfg: Settings,
                   readRows: seq<Row> -> Answer, readChildren: seq<(Id, string)> -> Answer)
    returns (r: Result<Report, Error>, db2: Db)
    requires db.historyRevision == db.searchRevision ==> DbOk(db, cfg.m) && AllTitled(db.forest.nodes)
    requires Lists(previous, if rebuild then map[] else db.forest.nodes)
    ensures db.historyRevision != db.searchRevision <==> r == Err(StoreCorrupt)
    ensures r.Err? ==> db2 == db
    ensures r.Ok? ==> DbOk(db2, cfg.m) && AllTitled(db2.forest.nodes) && r.value.calls <= cfg.limit
    ensures r.Ok? ==> Reported(db, rebuild, db2, r.value)
    ensures r.Ok? && db2 != db ==> (Unbroken(db2) <==> rebuild || Unbroken(db))
    ensures db2 != db ==> Says(db, rebuild, db2, readRows, readChildren)
  {
    db2 := db;
    if db.historyRevision != db.searchRevision {
      return Err(StoreCorrupt), db2;
    }
    if From(db, rebuild) > db.highWater {
      UptoIs(db.committedSeq);
      hide DbOk, AllTitled, Lists, Unbroken, Says, IsUpto;
      return Ok(Report(Upto(db.committedSeq), Nothing, 0, Complete)), db2;
    }
    hide *;
    var report;
    report, db2 := IndexPending(db, rebuild, previous, cfg, readRows, readChildren);
    r := Ok(report);
  }

  // ---------------------------------------------------------------- when a partial index has nothing pending

  /** No stored message is waiting to be indexed. */
  ghost predicate NothingWaits(db: Db) {
    forall m :: m in db.messages ==> m.seqNo <= db.committedSeq
  }

  lemma NothingWaitsIs(db: Db, m: nat)
    requires DbOk(db, m)
    ensures NothingWaits(db) <==> NoneAbove(db, false, 0)
  {
    DbParts(db, m);
    hide DbOk, Framed, Settled;
  }

  /**
   * An ordinary call that finds nothing waiting changes nothing and asks nothing.  It reports a complete
   * index if and only if the mark has reached the high-water mark: when the highest numbers ever given
   * belong to no stored message, it reports a partial one, with nothing stored among the pending numbers.
   */
  lemma IdleReport(db: Db, db2: Db, r: Report, m: nat)
    requires DbOk(db, m) && NothingWaits(db) && Reported(db, false, db2, r)
    ensures db2 == db && r.calls == 0 && (r.status == Complete <==> db.committedSeq == db.highWater)
    ensures forall x :: x in db.messages ==> !Holds(r.pending, x.seqNo)
  {
    NothingWaitsIs(db, m);
    DbParts(db, m);
    hide DbOk, Framed, Settled, IsUpto, NoneAbove;
    ReportedParts(db, db2, r);
    assert r.status == Complete <==> db.committedSeq >= db.highWater;
  }

  lemma ReportedParts(db: Db, db2: Db, r: Report)
    requires Reported(db, false, db2, r)
    ensures NoneAbove(db, false, 0) ==> db2 == db && r.calls == 0
    ensures db2 == db ==> forall q: nat :: db.committedSeq < q <= db.highWater <==> Holds(r.pending, q)
    ensures db2 == db ==> (r.status == Complete <==> UpToDate(db, false))
  {
    hide NoneAbove, IsUpto;
  }

  /** So after any clear of a store that ever gave a number, calls report a partial index until the next message. */
  lemma ClearLeavesPartial(db: Db, m: nat)
    requires DbOk(db, m) && 2 <= m && db.highWater > 0
    ensures var after := Clear(db).value;
            Clear(db).Ok? && DbOk(after, m) && NothingWaits(after) && after.messages == [] && !UpToDate(after, false)
  {
    ClearKeepsOk(db, m);
    hide DbOk;
    ClearedStore(db);
  }

  lemma ClearedStore(db: Db)
    requires Clear(db).Ok?
    ensures Clear(db).value.messages == [] && Clear(db).value.committedSeq == 0
            && Clear(db).value.highWater == db.highWater
  {}
}
