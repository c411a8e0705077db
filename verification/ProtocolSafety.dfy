/** Safety of every run of the store protocol, over all interleavings. */
module ProtocolSafety {
  import opened Wrappers
  import opened Sequences
  import opened Records
  import opened Hierarchy
  import opened HierarchyReplan
  import opened Indexing
  import opened IndexRuns
  import opened Transactions
  import opened StoreInvariants
  import opened PublishInvariants
  import opened Retrieval
  import opened Protocol

  // ---------------------------------------------------------------- where messages came from

  lemma IngestAccounts(db: Db, after: Db, b: Batch, r: Receipt, imported: set<nat>)
    requires Accounted(db, imported) && SeqsWithin(db.messages, db.highWater)
    requires Wrote(db, after) && Accounts(db, after, b, r) && (b.source, b.key) !in db.receipts
    ensures Accounted(after, imported)
  {
    AppendedSeqs(db.messages, after.messages, db.highWater + 1, after.highWater + 1);
    forall q | q in imported ensures StoredSeq(after.messages, q) && q <= db.highWater {
      StoredMore(db.messages, after.messages, q);
      assert StoredSeq(db.messages, q);
    }
    forall q: nat ensures Receipted(after.receipts, q) <==> Receipted(db.receipts, q) || InReceipt(r, q) {
      ReceiptAdded(db.receipts, (b.source, b.key), r, q);
    }
    hide StoredSeq, Appended, SeqsWithin, Receipted;
    forall m | m in after.messages ensures Origin(after, imported, m.seqNo) {
      if m in db.messages {
        assert Origin(db, imported, m.seqNo);
        assert m.seqNo <= db.highWater by { Within(db, m); }
      }
    }
  }

  lemma Within(db: Db, m: Message)
    requires SeqsWithin(db.messages, db.highWater) && m in db.messages
    ensures m.seqNo <= db.highWater
  {}

  lemma ReceiptAdded(receipts: Receipts, k: (string, string), r: Receipt, q: nat)
    requires k !in receipts
    ensures Receipted(receipts[k := r], q) <==> Receipted(receipts, q) || InReceipt(r, q)
  {
    hide InReceipt;
    var more := receipts[k := r];
    if InReceipt(r, q) { assert InReceipt(more[k], q); }
    if Receipted(receipts, q) {
      var l :| l in receipts && InReceipt(receipts[l], q);
      assert InReceipt(more[l], q);
    }
  }

  lemma ImportAccounts(db: Db, after: Db, imported: set<nat>)
    requires Accounted(db, imported) && ReceiptsStored(db) && ClashFree(after.messages)
    requires db.messages <= after.messages && after.receipts == db.receipts
    ensures Accounted(after, imported + Arrived(db, after))
  {
    var all := imported + Arrived(db, after);
    forall q | q in all ensures StoredSeq(after.messages, q) {
      if q in imported { StoredMore(db.messages, after.messages, q); }
    }
    forall m | m in after.messages ensures Origin(after, all, m.seqNo) {
      assert m.seqNo in Numbers(after.messages);
      if m in db.messages {
        assert Origin(db, imported, m.seqNo) && m.seqNo in Numbers(db.messages);
      } else {
        NumberIsNew(db, after, m);
      }
    }
  }

  lemma NumberIsNew(db: Db, after: Db, m: Message)
    requires ReceiptsStored(db) && ClashFree(after.messages) && db.messages <= after.messages
    requires m in after.messages && m !in db.messages
    ensures m.seqNo !in Numbers(db.messages) && !Receipted(db.receipts, m.seqNo)
  {
    ClashFreeNoDup(after.messages);
    forall n | n in db.messages ensures n.seqNo != m.seqNo {
      assert n in after.messages;
    }
    hide ClashFree, ReceiptsStored, Receipted;
    ReceiptedIsStored(db, m.seqNo);
  }

  lemma ReceiptedIsStored(db: Db, q: nat)
    requires ReceiptsStored(db)
    ensures Receipted(db.receipts, q) ==> StoredSeq(db.messages, q)
  {
    hide StoredSeq;
    if k :| k in db.receipts && InReceipt(db.receipts[k], q) {
      assert ReceiptOk(db.messages, db.receipts[k]);
    }
  }

  // ---------------------------------------------------------------- ingest, clear, whole imports

  lemma IngestStep(s: State, b: Batch, cfg: Settings)
    requires Inv(s, cfg) && |b.messages| == |b.stamps|
    ensures Inv(Next(s, Ingests(b), cfg), cfg)
  {
    var r := Ingest(s.db, b);
    InvParts(s, cfg);
    hide *;
    DbParts(s.db, cfg.m);
    IngestKeepsOk(s.db, b, cfg.m);
    IngestAdvances(s.db, b);
    IngestEffect(s.db, b);
    if r.reply.Committed? {
      WroteParts(s.db, r.db);
      IngestAccounts(s.db, r.db, b, r.reply.receipt, s.imported);
    }
    OthersStay(s, r.db, cfg);
    IngestNext(s, b, cfg);
    InvWhole(Next(s, Ingests(b), cfg), cfg);
  }

  lemma IngestNext(s: State, b: Batch, cfg: Settings)
    requires |b.messages| == |b.stamps|
    ensures Next(s, Ingests(b), cfg) == s.(db := Ingest(s.db, b).db)
  {
    hide Ingest;
  }

  lemma InvParts(s: State, cfg: Settings)
    requires Inv(s, cfg)
    ensures DbOk(s.db, cfg.m) && 2 <= cfg.m && IndexersOk(s.db, cfg, s.indexers) && ReadersOk(s.db, s.readers)
    ensures ImportersOk(s.db, s.importers) && Accounted(s.db, s.imported)
  {
    hide DbOk, IndexersOk, ReadersOk, ImportersOk, Accounted;
  }

  lemma InvWhole(s: State, cfg: Settings)
    requires DbOk(s.db, cfg.m) && 2 <= cfg.m && IndexersOk(s.db, cfg, s.indexers) && ReadersOk(s.db, s.readers)
    requires ImportersOk(s.db, s.importers) && Accounted(s.db, s.imported)
    ensures Inv(s, cfg)
  {
    hide DbOk, IndexersOk, ReadersOk, ImportersOk, Accounted;
  }

  lemma ClearStep(s: State, cfg: Settings)
    requires Inv(s, cfg)
    ensures Inv(Next(s, Clears, cfg), cfg)
  {
    var after := Clear(s.db).value;
    InvParts(s, cfg);
    hide *;
    ClearKeepsOk(s.db, cfg.m);
    ClearAdvances(s.db);
    ClearParts(s.db);
    OthersStay(s, after, cfg);
    ClearNext(s, cfg);
    InvWhole(Next(s, Clears, cfg), cfg);
  }

  lemma ClearParts(db: Db)
    requires Clear(db).Ok?
    ensures var after := Clear(db).value; Accounted(after, {}) && after.historyRevision > db.historyRevision
  {}

  lemma ClearNext(s: State, cfg: Settings)
    requires Clear(s.db).Ok?
    ensures Next(s, Clears, cfg) == s.(db := Clear(s.db).value, imported := {})
  {
    hide Clear;
  }

  /**
   * What a whole import leaves: the old rows and more, the same receipts, a later history unless nothing was written.
   */
  ghost predicate ImportedInto(db: Db, after: Db) {
    && db.messages <= after.messages && after.receipts == db.receipts && RowsOk(after)
    && (after == db || db.historyRevision < after.historyRevision)
  }

  lemma ImportBatchInto(db: Db, records: seq<Message>, expected: Option<nat>)
    requires RowsOk(db) && StoreInvariants.Numbered(records) && ImportBatch(db, records, expected).Ok?
    ensures ImportedInto(db, ImportBatch(db, records, expected).value)
  {
    ImportBatchEffect(db, records, expected);
    hide ImportBatch, RowsOk;
    if records != [] { WroteParts(db, ImportBatch(db, records, expected).value); }
  }

  lemma {:induction false} ImportFromInto(db: Db, records: seq<Message>, expected: Option<nat>, count: nat)
    requires RowsOk(db) && StoreInvariants.Numbered(records)
    ensures ImportedInto(db, ImportFrom(db, records, expected, count).db)
    decreases |records|
  {
    hide RowsOk, ImportBatch;
    var batch := if |records| <= IMPORT_BATCH_SIZE then records else records[..IMPORT_BATCH_SIZE];
    var step := ImportBatch(db, batch, expected);
    if step.Ok? {
      ImportBatchInto(db, batch, expected);
      if |records| > IMPORT_BATCH_SIZE {
        ImportFromInto(step.value, records[IMPORT_BATCH_SIZE..], Some(db.historyRevision + 1), count + |batch|);
      }
    }
  }

  lemma ImportWholeStep(s: State, records: seq<Message>, cfg: Settings)
    requires Inv(s, cfg) && StoreInvariants.Numbered(records)
    ensures Inv(Next(s, ImportsWhole(records), cfg), cfg)
  {
    var after := Import(s.db, records).db;
    InvParts(s, cfg);
    ImportIs(s.db, records);
    hide *;
    DbParts(s.db, cfg.m);
    ImportKeepsOk(s.db, records, cfg.m);
    ImportFromAdvances(s.db, records, None, 0);
    ImportFromInto(s.db, records, None, 0);
    IntoParts(s.db, after);
    ImportAccounts(s.db, after, s.imported);
    OthersStay(s, after, cfg);
    ImportWholeNext(s, records, cfg);
    InvWhole(Next(s, ImportsWhole(records), cfg), cfg);
  }

  lemma ImportIs(db: Db, records: seq<Message>)
    ensures Import(db, records) == ImportFrom(db, records, None, 0)
  {}

  lemma IntoParts(db: Db, after: Db)
    requires ImportedInto(db, after)
    ensures db.messages <= after.messages && after.receipts == db.receipts && ClashFree(after.messages) && RowsOk(after)
    ensures after.historyRevision == db.historyRevision ==> after.messages == db.messages
  {}

  lemma ImportWholeNext(s: State, records: seq<Message>, cfg: Settings)
    ensures var after := Import(s.db, records).db;
            Next(s, ImportsWhole(records), cfg) == s.(db := after, imported := s.imported + Arrived(s.db, after))
  {
    hide Import, Arrived;
  }

  // ---------------------------------------------------------------- one batch of an interleaved import

  lemma FileSplit(records: seq<Message>)
    requires StoreInvariants.Numbered(records)
    ensures StoreInvariants.Numbered(FirstBatch(records))
    ensures |records| > IMPORT_BATCH_SIZE ==> StoreInvariants.Numbered(records[IMPORT_BATCH_SIZE..])
    ensures |records| > IMPORT_BATCH_SIZE && AscendingFile(records) ==>
              && AscendingFile(records[IMPORT_BATCH_SIZE..])
              && AllBefore(FirstBatch(records), records[IMPORT_BATCH_SIZE..])
    ensures forall r :: r in FirstBatch(records) ==> r in records
  {
    if |records| > IMPORT_BATCH_SIZE && AscendingFile(records) {
      var a, b := records[..IMPORT_BATCH_SIZE], records[IMPORT_BATCH_SIZE..];
      forall m, r | m in a && r in b ensures m.seqNo < r.seqNo {
        var i :| 0 <= i < |a| && a[i] == m;
        var j :| 0 <= j < |b| && b[j] == r;
        assert records[i].seqNo < records[IMPORT_BATCH_SIZE + j].seqNo;
      }
    }
  }

  /** An ascending file's next batch never lands behind the index mark, published when it may. */
  lemma SortedBatchHarmless(db: Db, im: Importer, m: nat)
    requires DbOk(db, m) && ImporterOk(db, im) && im.sorted && ImportBatch(db, FirstBatch(im.records), im.expected).Ok?
    ensures AllHarmless(db, FirstBatch(im.records)) && AllBefore(db.messages, im.records)
  {
    FileSplit(im.records);
    BatchExpected(db, FirstBatch(im.records), im.expected);
    if im.expected.None? {
      EmptyStore(db, m);
      hide DbOk;
    } else {
      assert AllBefore(db.messages, im.records);
      MarkIsStored(db, m);
    }
    hide DbOk, ImportBatch, AscendingFile;
    forall r | r in FirstBatch(im.records) ensures Harmless(db, r) {
      assert r in im.records && r.seqNo >= 1;
    }
  }

  lemma BatchExpected(db: Db, records: seq<Message>, expected: Option<nat>)
    requires ImportBatch(db, records, expected).Ok?
    ensures expected.None? ==> db.messages == []
    ensures expected.Some? ==> expected.value == db.historyRevision
  {
    hide InsertRecords, MaxSeq;
  }

  /** The mark is zero or the number of a stored message. */
  lemma MarkIsStored(db: Db, m: nat)
    requires DbOk(db, m)
    ensures db.committedSeq == 0 || StoredSeq(db.messages, db.committedSeq)
  {
    hide RowsOk, Settled, ReceiptsOk, StoredSeq;
  }

  /** After a batch, every stored message is numbered before every record still to come. */
  lemma BatchBefore(db: Db, records: seq<Message>, expected: Option<nat>)
    requires RowsOk(db) && StoreInvariants.Numbered(records) && AscendingFile(records) && |records| > IMPORT_BATCH_SIZE
    requires AllBefore(db.messages, records) && ImportBatch(db, FirstBatch(records), expected).Ok?
    ensures AllBefore(ImportBatch(db, FirstBatch(records), expected).value.messages, records[IMPORT_BATCH_SIZE..])
    ensures ImportBatch(db, FirstBatch(records), expected).value.historyRevision == db.historyRevision + 1
  {
    var batch, rest := FirstBatch(records), records[IMPORT_BATCH_SIZE..];
    var after := ImportBatch(db, batch, expected).value;
    FileSplit(records);
    ImportBatchEffect(db, batch, expected);
    WroteParts(db, after);
    hide RowsOk, ImportBatch, AscendingFile, Wrote, Copied;
    forall m, r | m in after.messages && r in rest ensures m.seqNo < r.seqNo {
      assert r in records;
      if m !in db.messages {
        var x :| x in batch && x.seqNo == m.seqNo;
      }
    }
  }

  lemma ImportBatchStep(s: State, op: nat, cfg: Settings)
    requires Inv(s, cfg) && op in s.importers
             && ImportBatch(s.db, FirstBatch(s.importers[op].records), s.importers[op].expected).Ok?
    ensures Inv(Next(s, ImportsBatch(op), cfg), cfg)
  {
    var im := s.importers[op];
    var batch := FirstBatch(im.records);
    var after := ImportBatch(s.db, batch, im.expected).value;
    InvParts(s, cfg);
    ImporterAt(s.db, s.importers, op);
    hide *;
    DbParts(s.db, cfg.m);
    ImporterParts(s.db, im);
    FileSplit(im.records);
    ImportBatchKeepsOk(s.db, batch, im.expected, cfg.m);
    ImportBatchAdvances(s.db, batch, im.expected);
    ImportBatchInto(s.db, batch, im.expected);
    IntoParts(s.db, after);
    ImportAccounts(s.db, after, s.imported);
    OthersStay(s, after, cfg);
    if |im.records| > IMPORT_BATCH_SIZE {
      RemainingOk(s.db, im, cfg.m);
      ImporterPut(after, s.importers, op, Remaining(im, s.db));
    }
    ImporterDrop(after, s.importers, op);
    ImportBatchNext(s, op, cfg);
    InvWhole(Next(s, ImportsBatch(op), cfg), cfg);
  }

  lemma ImporterAt(db: Db, importers: map<nat, Importer>, op: nat)
    requires ImportersOk(db, importers) && op in importers
    ensures ImporterOk(db, importers[op])
  {}

  lemma ImporterParts(db: Db, im: Importer)
    requires ImporterOk(db, im)
    ensures StoreInvariants.Numbered(im.records)
  {
    hide StoreInvariants.Numbered, AscendingFile, AllBefore;
  }

  lemma RemainingOk(db: Db, im: Importer, m: nat)
    requires DbOk(db, m) && ImporterOk(db, im) && |im.records| > IMPORT_BATCH_SIZE
    requires ImportBatch(db, FirstBatch(im.records), im.expected).Ok?
    ensures ImporterOk(ImportBatch(db, FirstBatch(im.records), im.expected).value, Remaining(im, db))
  {
    var after := ImportBatch(db, FirstBatch(im.records), im.expected).value;
    assert StoreInvariants.Numbered(im.records) && (im.sorted ==> AscendingFile(im.records));
    hide *;
    DbParts(db, m);
    FileSplit(im.records);
    BatchRevision(db, im.records, im.expected);
    if im.sorted {
      SortedBatchHarmless(db, im, m);
      BatchBefore(db, im.records, im.expected);
    }
    ImporterReady(after, Remaining(im, db), im, db);
  }

  lemma BatchRevision(db: Db, records: seq<Message>, expected: Option<nat>)
    requires RowsOk(db) && StoreInvariants.Numbered(records) && |records| > IMPORT_BATCH_SIZE
    requires ImportBatch(db, FirstBatch(records), expected).Ok?
    ensures ImportBatch(db, FirstBatch(records), expected).value.historyRevision == db.historyRevision + 1
  {
    FileSplit(records);
    ImportBatchEffect(db, FirstBatch(records), expected);
    hide RowsOk, ImportBatch, Copied, Sourced;
  }

  lemma ImporterReady(after: Db, next: Importer, im: Importer, db: Db)
    requires |im.records| > IMPORT_BATCH_SIZE && next == Remaining(im, db)
             && after.historyRevision == db.historyRevision + 1
    requires StoreInvariants.Numbered(next.records)
    requires im.sorted ==> AscendingFile(next.records) && AllBefore(after.messages, next.records)
    ensures ImporterOk(after, next)
  {
    hide StoreInvariants.Numbered, AscendingFile, AllBefore;
  }

  lemma ImporterPut(db: Db, importers: map<nat, Importer>, op: nat, im: Importer)
    requires ImportersOk(db, importers) && ImporterOk(db, im)
    ensures ImportersOk(db, importers[op := im])
  {
    hide ImporterOk;
  }

  lemma ImporterDrop(db: Db, importers: map<nat, Importer>, op: nat)
    requires ImportersOk(db, importers)
    ensures ImportersOk(db, importers - {op})
  {
    hide ImporterOk;
  }

  lemma ImportBatchNext(s: State, op: nat, cfg: Settings)
    requires op in s.importers && ImportBatch(s.db, FirstBatch(s.importers[op].records), s.importers[op].expected).Ok?
    ensures var im := s.importers[op];
            var after := ImportBatch(s.db, FirstBatch(im.records), im.expected).value;
            Next(s, ImportsBatch(op), cfg) ==
            s.(db := after, imported := s.imported + Arrived(s.db, after),
               importers := if |im.records| <= IMPORT_BATCH_SIZE then s.importers - {op}
                            else s.importers[op := Remaining(im, s.db)])
  {
    hide ImportBatch, Arrived, FirstBatch, Remaining;
  }

  // ---------------------------------------------------------------- index steps

  lemma IndexerPut(db: Db, cfg: Settings, indexers: map<nat, Indexer>, op: nat, ix: Indexer)
    requires IndexersOk(db, cfg, indexers) && IndexerOk(db, cfg, ix)
    ensures IndexersOk(db, cfg, indexers[op := ix])
  {
    hide IndexerOk;
  }

  lemma IndexerDrop(db: Db, cfg: Settings, indexers: map<nat, Indexer>, op: nat)
    requires IndexersOk(db, cfg, indexers)
    ensures IndexersOk(db, cfg, indexers - {op})
    ensures op in indexers ==> IndexerOk(db, cfg, indexers[op])
  {
    hide IndexerOk;
  }

  lemma ReadIndexStep(s: State, op: nat, rebuild: bool, cfg: Settings)
    requires Inv(s, cfg)
    ensures Inv(Next(s, ReadsIndex(op, rebuild), cfg), cfg)
  {
    InvParts(s, cfg);
    hide *;
    ReadIndexNext(s, op, rebuild, cfg);
    if IndexRead(s.db, rebuild).Ok? {
      var ix := Indexer(rebuild, IndexRead(s.db, rebuild).value, None);
      FreshIndexer(s.db, cfg, rebuild);
      IndexerPut(s.db, cfg, s.indexers, op, ix);
      InvWhole(Next(s, ReadsIndex(op, rebuild), cfg), cfg);
    } else {
      InvWhole(s, cfg);
    }
  }

  lemma FreshIndexer(db: Db, cfg: Settings, rebuild: bool)
    requires IndexRead(db, rebuild).Ok?
    ensures IndexerOk(db, cfg, Indexer(rebuild, IndexRead(db, rebuild).value, None))
  {
    ReadIsCurrent(db, rebuild);
    hide IndexRead;
  }

  lemma ReadIsCurrent(db: Db, rebuild: bool)
    requires IndexRead(db, rebuild).Ok?
    ensures Current(db, IndexRead(db, rebuild).value)
  {}

  lemma ReadIndexNext(s: State, op: nat, rebuild: bool, cfg: Settings)
    ensures Next(s, ReadsIndex(op, rebuild), cfg) ==
            if IndexRead(s.db, rebuild).Err? then s
            else s.(indexers := s.indexers[op := Indexer(rebuild, IndexRead(s.db, rebuild).value, None)])
  {
    hide IndexRead;
  }

  lemma PlanStep(s: State, op: nat, families: Families, count: nat, titled: map<Id, Node>, planned: Backlog,
                 cfg: Settings)
    requires Inv(s, cfg) && op in s.indexers
    requires 2 <= cfg.m && Commits(s.indexers[op].capture.backlog, cfg, families, count, titled, planned)
    ensures Inv(Next(s, Plans(op, families, count, titled, planned), cfg), cfg)
  {
    InvParts(s, cfg);
    var ix := s.indexers[op];
    var c := ix.capture;
    var chunks := Chunks(c.backlog.rows, cfg.target);
    NewLeafFacts(c.backlog, cfg);
    if 0 < count <= |chunks| {
      var p := ProposalOf(c, cfg, count, planned);
      assert PlannedAs(c, cfg, p, families, count, titled, planned);
      hide *;
      IndexerDrop(s.db, cfg, s.indexers, op);
      PlannedIndexer(s.db, cfg, ix, p, families, count, titled, planned);
      IndexerPut(s.db, cfg, s.indexers, op, ix.(proposal := Some(p)));
      PlanNext(s, op, families, count, titled, planned, cfg);
      InvWhole(Next(s, Plans(op, families, count, titled, planned), cfg), cfg);
    }
  }

  lemma PlannedIndexer(db: Db, cfg: Settings, ix: Indexer, p: Proposal, families: Families, count: nat,
                       titled: map<Id, Node>, planned: Backlog)
    requires IndexerOk(db, cfg, ix) && PlannedAs(ix.capture, cfg, p, families, count, titled, planned)
    ensures IndexerOk(db, cfg, ix.(proposal := Some(p)))
  {
    hide PlannedAs, IndexRead, Current;
  }

  lemma PlanNext(s: State, op: nat, families: Families, count: nat, titled: map<Id, Node>, planned: Backlog,
                 cfg: Settings)
    requires op in s.indexers
    requires var chunks := Chunks(s.indexers[op].capture.backlog.rows, cfg.target);
             0 < count <= |chunks| && Nonempty(chunks)
    ensures Next(s, Plans(op, families, count, titled, planned), cfg) ==
            var p := ProposalOf(s.indexers[op].capture, cfg, count, planned);
            s.(indexers := s.indexers[op := s.indexers[op].(proposal := Some(p))])
  {
    hide Chunks, Hi;
  }

  /** A proposal the store accepts was captured from exactly the present messages and tree. */
  lemma AcceptedIsCurrent(db: Db, cfg: Settings, ix: Indexer)
    requires IndexerOk(db, cfg, ix) && ix.proposal.Some? && Publish(db, ix.proposal.value).Ok?
    ensures IndexRead(db, ix.rebuild) == Ok(ix.capture)
  {
    hide IndexRead, Commits;
    var families, count, titled, planned :|
      PlannedAs(ix.capture, cfg, ix.proposal.value, families, count, titled, planned);
    ProposalRevisions(ix.capture, cfg, count, planned);
  }

  lemma ProposalRevisions(c: Capture, cfg: Settings, count: nat, planned: Backlog)
    requires 0 < count <= |Chunks(c.backlog.rows, cfg.target)| && Nonempty(Chunks(c.backlog.rows, cfg.target))
    ensures var p := ProposalOf(c, cfg, count, planned);
            p.historyRevision == c.historyRevision && p.indexRevision == c.indexRevision && p.generation == c.generation
  {
    hide Chunks, Hi, Nonempty;
  }

  lemma PlannedPublishOk(db: Db, cfg: Settings, ix: Indexer)
    requires DbOk(db, cfg.m) && 2 <= cfg.m && IndexerOk(db, cfg, ix) && ix.proposal.Some?
             && Publish(db, ix.proposal.value).Ok?
    ensures DbOk(Publish(db, ix.proposal.value).value, cfg.m)
    ensures Unbroken(Publish(db, ix.proposal.value).value) <==> ix.rebuild || Unbroken(db)
  {
    AcceptedIsCurrent(db, cfg, ix);
    hide DbOk, IndexRead, Publish, Commits;
    var families, count, titled, planned :|
      PlannedAs(ix.capture, cfg, ix.proposal.value, families, count, titled, planned);
    PublishKeepsOk(db, ix.rebuild, cfg, families, count, titled, planned);
  }

  lemma PublishStep(s: State, op: nat, cfg: Settings)
    requires Inv(s, cfg) && op in s.indexers && s.indexers[op].proposal.Some?
    ensures Inv(Next(s, Publishes(op), cfg), cfg)
  {
    InvParts(s, cfg);
    var ix := s.indexers[op];
    var r := Publish(s.db, ix.proposal.value);
    hide *;
    IndexerDrop(s.db, cfg, s.indexers, op);
    PublishNext(s, op, cfg);
    if r.Ok? {
      PlannedPublishOk(s.db, cfg, ix);
      PublishAdvances(s.db, ix.proposal.value);
      PublishKeepsRows(s.db, ix.proposal.value);
      OthersStay(s, r.value, cfg);
      IndexerDrop(r.value, cfg, s.indexers, op);
      AccountedSame(s.db, r.value, s.imported);
    }
    InvWhole(Next(s, Publishes(op), cfg), cfg);
  }

  lemma PublishKeepsRows(db: Db, p: Proposal)
    requires Publish(db, p).Ok?
    ensures Publish(db, p).value.messages == db.messages && Publish(db, p).value.receipts == db.receipts
  {}

  lemma AccountedSame(db: Db, after: Db, imported: set<nat>)
    requires Accounted(db, imported) && after.messages == db.messages && after.receipts == db.receipts
    ensures Accounted(after, imported)
  {
    hide Receipted, StoredSeq;
    forall m | m in after.messages ensures Origin(after, imported, m.seqNo) {
      assert Origin(db, imported, m.seqNo);
    }
  }

  lemma PublishNext(s: State, op: nat, cfg: Settings)
    requires op in s.indexers && s.indexers[op].proposal.Some?
    ensures var r := Publish(s.db, s.indexers[op].proposal.value);
            Next(s, Publishes(op), cfg) == s.(db := if r.Ok? then r.value else s.db, indexers := s.indexers - {op})
  {
    hide Publish;
  }

  // ---------------------------------------------------------------- retrieval steps

  lemma ReaderPut(db: Db, readers: map<nat, Reader>, op: nat, r: Reader)
    requires ReadersOk(db, readers) && ReaderOk(db, r)
    ensures ReadersOk(db, readers[op := r])
  {
    hide ReaderOk;
  }

  lemma OpenRetrievalStep(s: State, e: Event, cfg: Settings)
    requires Inv(s, cfg) && e.OpensRetrieval?
    ensures Inv(Next(s, e, cfg), cfg)
  {
    hide *;
    InvParts(s, cfg);
    OpenedReaderOk(s.db, e.view, e.hits, e.pairs, cfg.m);
    ReaderPut(s.db, s.readers, e.op, OpenedReader(s.db, e.view, e.hits, e.pairs));
    OpenRetrievalNext(s, e, cfg);
    InvWhole(Next(s, e, cfg), cfg);
  }

  /** What a retrieval holds once its snapshot is taken. */
  function OpenedReader(db: Db, view: View, hits: seq<CandidateKey>, pairs: seq<(CandidateKey, CandidateKey)>): Reader {
    Reader(SnapshotOf(db), CiteAll(db.messages, view, hits), CitePairs(db.messages, view, pairs, db.highWater), [], [])
  }

  lemma OpenedReaderOk(db: Db, view: View, hits: seq<CandidateKey>, pairs: seq<(CandidateKey, CandidateKey)>, m: nat)
    requires DbOk(db, m)
    ensures ReaderOk(db, OpenedReader(db, view, hits, pairs))
  {
    DbParts(db, m);
    hide DbOk, CiteAll, CitePairs, Cited;
    CiteAllCited(db.messages, view, hits, db.highWater);
    CitePairsCited(db.messages, view, pairs, db.highWater);
  }

  lemma OpenRetrievalNext(s: State, e: Event, cfg: Settings)
    requires e.OpensRetrieval?
    ensures Next(s, e, cfg) == s.(readers := s.readers[e.op := OpenedReader(s.db, e.view, e.hits, e.pairs)])
  {
    hide CiteAll, CitePairs;
  }

  lemma VisitTreeStep(s: State, e: Event, cfg: Settings)
    requires Inv(s, cfg) && e.VisitsTree? && e.op in s.readers
    ensures Inv(Next(s, e, cfg), cfg)
  {
    hide *;
    InvParts(s, cfg);
    ReaderAt(s.db, s.readers, e.op);
    VisitTreeNext(s, e, cfg);
    VisitedReaderOk(s.db, s.readers[e.op], e.view, e.leaf, e.parts, cfg.m);
    ReaderPut(s.db, s.readers, e.op, VisitedReader(s.db, s.readers[e.op], e.view, e.leaf, e.parts));
    InvWhole(Next(s, e, cfg), cfg);
  }

  lemma ReaderAt(db: Db, readers: map<nat, Reader>, op: nat)
    requires ReadersOk(db, readers) && op in readers
    ensures ReaderOk(db, readers[op])
  {
    hide ReaderOk;
  }

  /** What a retrieval holds after a visit to one leaf: nothing from the tree once the tree has changed. */
  function VisitedReader(db: Db, r: Reader, view: View, leaf: nat, parts: seq<CandidateKey>): Reader {
    if db.indexRevision != r.snapshot.indexRevision || db.generation != r.snapshot.generation then
      r.(tree := [], chunks := [])
    else if leaf >= |db.forest.leaves| then r
    else
      var n := db.forest.leaves[leaf];
      var last := if n.hi <= r.snapshot.maxSeq then n.hi else r.snapshot.maxSeq;
      r.(tree := r.tree + InSpan(CiteAll(db.messages, view, parts), n.lo, last), chunks := r.chunks + [n.id])
  }

  lemma VisitedReaderOk(db: Db, r: Reader, view: View, leaf: nat, parts: seq<CandidateKey>, m: nat)
    requires DbOk(db, m) && ReaderOk(db, r)
    ensures ReaderOk(db, VisitedReader(db, r, view, leaf, parts))
  {
    DbParts(db, m);
    hide DbOk, CiteAll, Cited, InSpan, SeqsWithin;
    if db.generation == r.snapshot.generation && db.indexRevision == r.snapshot.indexRevision
      && leaf < |db.forest.leaves| {
      var n := db.forest.leaves[leaf];
      var last := if n.hi <= r.snapshot.maxSeq then n.hi else r.snapshot.maxSeq;
      var more := InSpan(CiteAll(db.messages, view, parts), n.lo, last);
      CiteAllCited(db.messages, view, parts, db.highWater);
      InSpanCited(db.messages, CiteAll(db.messages, view, parts), n.lo, last, db.highWater);
      CitedConcat(db.messages, r.snapshot.maxSeq, last, r.tree, more);
    }
  }

  lemma VisitTreeNext(s: State, e: Event, cfg: Settings)
    requires e.VisitsTree? && e.op in s.readers
    ensures Next(s, e, cfg) ==
            s.(readers := s.readers[e.op := VisitedReader(s.db, s.readers[e.op], e.view, e.leaf, e.parts)])
  {
    hide CiteAll, InSpan;
    assert s.readers[e.op := s.readers[e.op]] == s.readers;
  }

  lemma CitedConcat(messages: seq<Message>, upto: nat, last: nat, a: seq<Candidate>, b: seq<Candidate>)
    requires AllCited(messages, upto, a) && AllCited(messages, last, b) && last <= upto
    ensures AllCited(messages, upto, a + b)
  {
    hide Quotes;
    forall c | c in a + b ensures Cited(messages, upto, c) {
      if c in b { assert Cited(messages, last, c); }
    }
  }

  // ---------------------------------------------------------------- all steps, all runs

  /** Every step keeps every invariant. */
  lemma StepKeepsInv(s: State, e: Event, cfg: Settings)
    requires Inv(s, cfg) && Enabled(s, e, cfg)
    ensures Inv(Next(s, e, cfg), cfg)
  {
    match e
    case Ingests(b) => IngestStep(s, b, cfg);
    case ImportsWhole(records) => ImportWholeStep(s, records, cfg);
    case OpensImport(op, records) => OpenImportStep(s, op, records, cfg);
    case ImportsBatch(op) =>
      if op in s.importers {
        if ImportBatch(s.db, FirstBatch(s.importers[op].records), s.importers[op].expected).Ok? {
          ImportBatchStep(s, op, cfg);
        } else {
          ImportDroppedStep(s, op, cfg);
        }
      }
    case Clears => ClearStep(s, cfg);
    case ReadsIndex(op, rebuild) => ReadIndexStep(s, op, rebuild, cfg);
    case Plans(op, families, count, titled, planned) =>
      if op in s.indexers { PlanStep(s, op, families, count, titled, planned, cfg); }
    case Publishes(op) =>
      if op in s.indexers && s.indexers[op].proposal.Some? { PublishStep(s, op, cfg); }
    case OpensRetrieval(_, _, _, _) => OpenRetrievalStep(s, e, cfg);
    case VisitsTree(op, _, _, _) =>
      if op in s.readers { VisitTreeStep(s, e, cfg); }
  }

  lemma OpenImportStep(s: State, op: nat, records: seq<Message>, cfg: Settings)
    requires Inv(s, cfg) && StoreInvariants.Numbered(records)
    ensures Inv(Next(s, OpensImport(op, records), cfg), cfg)
  {
    InvParts(s, cfg);
    var im := Importer(records, None, AscendingFile(records));
    assert ImporterOk(s.db, im);
    assert Next(s, OpensImport(op, records), cfg) == s.(importers := s.importers[op := im]);
    hide *;
    ImporterPut(s.db, s.importers, op, im);
    InvWhole(Next(s, OpensImport(op, records), cfg), cfg);
  }

  lemma ImportDroppedStep(s: State, op: nat, cfg: Settings)
    requires Inv(s, cfg) && op in s.importers
    requires ImportBatch(s.db, FirstBatch(s.importers[op].records), s.importers[op].expected).Err?
    ensures Inv(Next(s, ImportsBatch(op), cfg), cfg)
  {
    InvParts(s, cfg);
    hide *;
    ImporterDrop(s.db, s.importers, op);
    ImportDroppedNext(s, op, cfg);
    InvWhole(Next(s, ImportsBatch(op), cfg), cfg);
  }

  lemma ImportDroppedNext(s: State, op: nat, cfg: Settings)
    requires op in s.importers
    requires ImportBatch(s.db, FirstBatch(s.importers[op].records), s.importers[op].expected).Err?
    ensures Next(s, ImportsBatch(op), cfg) == s.(importers := s.importers - {op})
  {
    hide ImportBatch, FirstBatch;
  }

  ghost predicate StepAt(run: seq<State>, events: seq<Event>, cfg: Settings, i: nat)
    requires i < |events| && |run| == |events| + 1
  {
    Enabled(run[i], events[i], cfg) && run[i+1] == Next(run[i], events[i], cfg)
  }

  /** A run of the store from a fresh file, in any interleaving. */
  ghost predicate Run(run: seq<State>, events: seq<Event>, cfg: Settings) {
    && 2 <= cfg.m && |run| == |events| + 1 && (exists h :: run[0] == Initial(h))
    && forall i :: 0 <= i < |events| ==> StepAt(run, events, cfg, i)
  }

  lemma StepOf(run: seq<State>, events: seq<Event>, cfg: Settings, i: nat)
    requires Run(run, events, cfg) && i < |events|
    ensures |run| == |events| + 1 && Enabled(run[i], events[i], cfg) && run[i+1] == Next(run[i], events[i], cfg)
  {
    hide Next, Enabled, Initial;
    assert StepAt(run, events, cfg, i);
  }

  lemma {:induction false} RunKeepsInv(run: seq<State>, events: seq<Event>, cfg: Settings, i: nat)
    requires Run(run, events, cfg) && i < |run|
    ensures Inv(run[i], cfg)
  {
    hide Inv, Next, Enabled, Initial;
    if i == 0 {
      var h :| run[0] == Initial(h);
      InitialInv(h, cfg);
    } else {
      RunKeepsInv(run, events, cfg, i - 1);
      StepOf(run, events, cfg, i - 1);
      hide Run, StepAt;
      StepKeepsInv(run[i - 1], events[i - 1], cfg);
    }
  }

  // ---------------------------------------------------------------- when the tree covers the messages

  /** A committed import batch with a record behind the index mark, outside every published span. */
  ghost predicate Strays(s: State, e: Event) {
    && e.ImportsBatch? && e.op in s.importers
    && ImportBatch(s.db, FirstBatch(s.importers[e.op].records), s.importers[e.op].expected).Ok?
    && !AllHarmless(s.db, FirstBatch(s.importers[e.op].records))
  }

  /** A clear, or the publication of a rebuild. */
  ghost predicate Restores(s: State, e: Event) {
    || e.Clears?
    || (e.Publishes? && e.op in s.indexers && s.indexers[e.op].rebuild && s.indexers[e.op].proposal.Some? &&
        Publish(s.db, s.indexers[e.op].proposal.value).Ok?)
  }

  /** One step leaves the messages covered exactly if it restores the tree, or they were and it strays not. */
  lemma StepUnbroken(s: State, e: Event, cfg: Settings)
    requires Inv(s, cfg) && Enabled(s, e, cfg)
    ensures Unbroken(Next(s, e, cfg).db) <==> Restores(s, e) || (Unbroken(s.db) && !Strays(s, e))
  {
    assert Enabled(s, e, cfg) && e.Ingests? ==> |e.batch.messages| == |e.batch.stamps|;
    assert e.ImportsWhole? ==> StoreInvariants.Numbered(e.records);
    InvParts(s, cfg);
    NextWrites(s, e, cfg);
    Kinds(s, e);
    hide *;
    WrittenCases(s, e, cfg);
    match e
    case Ingests(b) => IngestKeepsOk(s.db, b, cfg.m);
    case ImportsWhole(records) => ImportKeepsOk(s.db, records, cfg.m);
    case ImportsBatch(op) =>
      if op in s.importers {
        ImporterAt(s.db, s.importers, op);
        ImporterParts(s.db, s.importers[op]);
        FileSplit(s.importers[op].records);
        var batch, expected := FirstBatch(s.importers[op].records), s.importers[op].expected;
        if ImportBatch(s.db, batch, expected).Ok? { ImportBatchPartition(s.db, batch, expected, cfg.m); }
      }
    case Clears => ClearKeepsOk(s.db, cfg.m);
    case Publishes(op) =>
      if op in s.indexers && s.indexers[op].proposal.Some? && Publish(s.db, s.indexers[op].proposal.value).Ok? {
        IndexerDrop(s.db, cfg, s.indexers, op);
        PlannedPublishOk(s.db, cfg, s.indexers[op]);
      }
    case _ =>
  }

  lemma Kinds(s: State, e: Event)
    ensures !e.ImportsBatch? ==> !Strays(s, e)
    ensures !e.Clears? && !e.Publishes? ==> !Restores(s, e)
    ensures e.Clears? ==> Restores(s, e)
    ensures e.ImportsBatch? ==>
              (Strays(s, e) <==>
                 && e.op in s.importers
                 && ImportBatch(s.db, FirstBatch(s.importers[e.op].records), s.importers[e.op].expected).Ok?
                 && !AllHarmless(s.db, FirstBatch(s.importers[e.op].records)))
    ensures e.Publishes? ==>
              (Restores(s, e) <==>
                 && e.op in s.indexers && s.indexers[e.op].rebuild && s.indexers[e.op].proposal.Some?
                 && Publish(s.db, s.indexers[e.op].proposal.value).Ok?)
  {
    hide ImportBatch, FirstBatch, AllHarmless, Publish;
  }

  /** A step between `j` and `i` restored the tree. */
  ghost predicate Mended(run: seq<State>, events: seq<Event>, j: nat, i: nat)
    requires i <= |events| && |run| == |events| + 1
  {
    exists k :: j < k < i && Restores(run[k], events[k])
  }

  /** Every stray batch so far has been mended since. */
  ghost predicate AllMended(run: seq<State>, events: seq<Event>, i: nat)
    requires i <= |events| && |run| == |events| + 1
  {
    forall j :: 0 <= j < i && Strays(run[j], events[j]) ==> Mended(run, events, j, i)
  }

  lemma MendedStep(run: seq<State>, events: seq<Event>, i: nat)
    requires i < |events| && |run| == |events| + 1
    ensures AllMended(run, events, i + 1) <==>
            Restores(run[i], events[i]) || (AllMended(run, events, i) && !Strays(run[i], events[i]))
  {
    Kinds(run[i], events[i]);
    hide Strays, Restores;
    if Restores(run[i], events[i]) {
      forall j | 0 <= j < i + 1 && Strays(run[j], events[j]) ensures Mended(run, events, j, i + 1) {
        assert j != i;
      }
    } else {
      forall j | 0 <= j <= i ensures Mended(run, events, j, i + 1) <==> Mended(run, events, j, i) {}
      if AllMended(run, events, i + 1) {
        forall j | 0 <= j < i && Strays(run[j], events[j]) ensures Mended(run, events, j, i) {
          assert Mended(run, events, j, i + 1);
        }
      }
    }
  }

  /**
   * In every reachable state the spans are disjoint, in order, bounded by stored messages, and end at the
   * index mark, which never exceeds the high-water mark.  They partition exactly the stored messages up
   * to the mark if and only if every import batch that strayed behind the mark has since been followed by
   * a clear or a published rebuild.
   */
  lemma PartitionExactly(run: seq<State>, events: seq<Event>, cfg: Settings, i: nat)
    requires Run(run, events, cfg) && i < |run|
    ensures var db := run[i].db;
            && Framed(db.messages, db.forest.leaves, db.committedSeq) && db.committedSeq <= db.highWater
               && Settled(db.forest, cfg.m)
            && |run| == |events| + 1
            && (Partitioned(db.messages, db.forest.leaves, db.committedSeq) <==> AllMended(run, events, i))
  {
    hide *;
    RunKeepsInv(run, events, cfg, i);
    PartitionedIs(run[i].db);
    InvParts(run[i], cfg);
    DbParts(run[i].db, cfg.m);
    UnbrokenExactly(run, events, cfg, i);
  }

  lemma {:induction false} UnbrokenExactly(run: seq<State>, events: seq<Event>, cfg: Settings, i: nat)
    requires Run(run, events, cfg) && i < |run|
    ensures |run| == |events| + 1 && (Unbroken(run[i].db) <==> AllMended(run, events, i))
  {
    hide *;
    RunLength(run, events, cfg);
    if i == 0 {
      StartsUnbroken(run, events, cfg);
    } else {
      UnbrokenExactly(run, events, cfg, i - 1);
      RunKeepsInv(run, events, cfg, i - 1);
      StepOf(run, events, cfg, i - 1);
      StepUnbroken(run[i - 1], events[i - 1], cfg);
      MendedStep(run, events, i - 1);
    }
  }

  lemma RunLength(run: seq<State>, events: seq<Event>, cfg: Settings)
    requires Run(run, events, cfg)
    ensures |run| == |events| + 1
  {
    hide Initial, StepAt;
  }

  lemma PartitionedIs(db: Db)
    ensures Partitioned(db.messages, db.forest.leaves, db.committedSeq) <==>
            Framed(db.messages, db.forest.leaves, db.committedSeq) && Unbroken(db)
  {
    hide Framed, AllSpanned;
  }

  lemma StartsUnbroken(run: seq<State>, events: seq<Event>, cfg: Settings)
    requires Run(run, events, cfg)
    ensures |run| == |events| + 1 && Unbroken(run[0].db) && AllMended(run, events, 0)
  {
    hide Strays, Mended, StepAt;
  }

  /** While every import in other processes is of an ascending file, as every export is, the partition always holds. */
  lemma TreeAlwaysPartitions(run: seq<State>, events: seq<Event>, cfg: Settings, i: nat)
    requires Run(run, events, cfg) && i < |run|
    requires forall k :: 0 <= k < |events| && events[k].OpensImport? ==> AscendingFile(events[k].records)
    ensures var db := run[i].db;
            Partitioned(db.messages, db.forest.leaves, db.committedSeq) && db.committedSeq <= db.highWater
              && Settled(db.forest, cfg.m)
  {
    PartitionExactly(run, events, cfg, i);
    RunLength(run, events, cfg);
    forall j | 0 <= j < i ensures !Strays(run[j], events[j]) {
      if Strays(run[j], events[j]) {
        var op := events[j].op;
        hide Run, ImportBatch, FirstBatch, AllHarmless;
        AllSorted(run, events, cfg, j);
        NextBatchHarmless(run, events, cfg, j, op);
      }
    }
    hide Strays, Run, Partitioned, Framed, Settled;
  }

  lemma {:induction false} AllSorted(run: seq<State>, events: seq<Event>, cfg: Settings, i: nat)
    requires Run(run, events, cfg) && i < |run|
    requires forall k :: 0 <= k < |events| && events[k].OpensImport? ==> AscendingFile(events[k].records)
    ensures forall op :: op in run[i].importers ==> run[i].importers[op].sorted
  {
    RunLength(run, events, cfg);
    if i == 0 {
      hide StepAt;
    } else {
      AllSorted(run, events, cfg, i - 1);
      StepOf(run, events, cfg, i - 1);
      hide Run, Enabled, AscendingFile;
      NextSorted(run[i - 1], events[i - 1], cfg);
    }
  }

  lemma NextSorted(s: State, e: Event, cfg: Settings)
    requires Enabled(s, e, cfg) && (forall op :: op in s.importers ==> s.importers[op].sorted)
    requires e.OpensImport? ==> AscendingFile(e.records)
    ensures forall op :: op in Next(s, e, cfg).importers ==> Next(s, e, cfg).importers[op].sorted
  {
    hide AscendingFile, Ingest, Import, ImportBatch, Clear, IndexRead, Publish, Chunks, Hi, Commits, CiteAll, CitePairs,
         InSpan, Arrived;
  }

  /**
   * The next batch of an ascending file is never behind the index mark, even when another process publishes in
   * between.
   */
  lemma NextBatchHarmless(run: seq<State>, events: seq<Event>, cfg: Settings, i: nat, op: nat)
    requires Run(run, events, cfg) && i < |events| && i < |run| && events[i] == ImportsBatch(op)
             && op in run[i].importers
    requires run[i].importers[op].sorted
    requires ImportBatch(run[i].db, FirstBatch(run[i].importers[op].records), run[i].importers[op].expected).Ok?
    ensures AllHarmless(run[i].db, FirstBatch(run[i].importers[op].records))
  {
    hide *;
    RunKeepsInv(run, events, cfg, i);
    InvParts(run[i], cfg);
    ImporterAt(run[i].db, run[i].importers, op);
    SortedBatchHarmless(run[i].db, run[i].importers[op], cfg.m);
  }

  // ---------------------------------------------------------------- what an accepted publication replaces

  /**
   * In every run a publication is accepted exactly when the revisions its input was captured under are
   * still the current ones.  Then what was captured is exactly the present messages and tree, the tree
   * published is a plan of them, and, unless it was rebuilt, every node still in it says what it said
   * before.  Otherwise nothing changes.
   */
  lemma AcceptedMeansCurrent(run: seq<State>, events: seq<Event>, cfg: Settings, i: nat, op: nat)
    requires Run(run, events, cfg) && i < |events| && |run| == |events| + 1 && events[i] == Publishes(op)
    requires op in run[i].indexers && run[i].indexers[op].proposal.Some?
    ensures var db, after, ix := run[i].db, run[i+1].db, run[i].indexers[op];
            if Current(db, ix.capture) then
              && IndexRead(db, ix.rebuild) == Ok(ix.capture) && Planned(ix.capture, cfg, ix.proposal.value)
              && Publish(db, ix.proposal.value) == Ok(after) && after.forest == ix.proposal.value.forest
              && (!ix.rebuild ==> ContentKept(db.forest.nodes, after.forest.nodes, db.nextNode))
            else after == db
  {
    hide *;
    RunKeepsInv(run, events, cfg, i);
    StepOf(run, events, cfg, i);
    InvParts(run[i], cfg);
    IndexerDrop(run[i].db, cfg, run[i].indexers, op);
    PublishNext(run[i], op, cfg);
    var db, ix := run[i].db, run[i].indexers[op];
    AcceptedIff(db, cfg, ix);
    if Current(db, ix.capture) {
      AcceptedIsCurrent(db, cfg, ix);
      PublishedForest(db, ix.proposal.value);
      if !ix.rebuild { PublishedContent(db, cfg, ix); }
    }
  }

  lemma AcceptedIff(db: Db, cfg: Settings, ix: Indexer)
    requires DbOk(db, cfg.m) && IndexerOk(db, cfg, ix) && ix.proposal.Some?
    ensures Publish(db, ix.proposal.value).Ok? <==> Current(db, ix.capture)
    ensures Planned(ix.capture, cfg, ix.proposal.value)
  {
    hide RowsOk, TreeOk, ReceiptsOk, IndexRead, Commits;
    var families, count, titled, planned :|
      PlannedAs(ix.capture, cfg, ix.proposal.value, families, count, titled, planned);
    ProposalRevisions(ix.capture, cfg, count, planned);
  }

  lemma PublishedForest(db: Db, p: Proposal)
    requires Publish(db, p).Ok?
    ensures Publish(db, p).value.forest == p.forest
  {}

  lemma PublishedContent(db: Db, cfg: Settings, ix: Indexer)
    requires DbOk(db, cfg.m) && ix.proposal.Some? && Planned(ix.capture, cfg, ix.proposal.value)
    requires IndexRead(db, false) == Ok(ix.capture)
    ensures ContentKept(db.forest.nodes, ix.proposal.value.forest.nodes, db.nextNode)
  {
    hide DbOk, IndexRead, Commits, ContentKept;
    CaptureIsReady(db, false, cfg);
    CapturedNext(db);
    var families, count, titled, planned :|
      PlannedAs(ix.capture, cfg, ix.proposal.value, families, count, titled, planned);
    CommitKeepsContent(ix.capture.backlog, cfg, families, count, titled, planned);
  }

  lemma CapturedNext(db: Db)
    requires IndexRead(db, false).Ok?
    ensures IndexRead(db, false).value.backlog.nextId == db.nextNode
    ensures IndexRead(db, false).value.backlog.forest == db.forest
  {}

  // ---------------------------------------------------------------- what retrieval emits

  lemma AssembledFrom(hits: seq<Candidate>, pairs: seq<Link>, tree: seq<Candidate>, limit: nat, most: nat, e: Evidence)
    requires e in Assembled(hits, pairs, tree, limit, most)
    ensures Retrieved(hits, pairs, e.candidate)
            || (e.candidate in tree && !HasKey(Lexical(hits, pairs), Retrieval.KeyOf(e.candidate)))
  {
    AssembledFits(hits, pairs, tree, limit, most);
    RankedOrder(hits, pairs, tree, limit);
    hide *;
  }

  /**
   * In every run, whatever happened since its snapshot: an emitted item names a message still stored when
   * it is emitted, quotes a contiguous piece of that message's text, lies within the snapshot's bound, and
   * comes from the tree only if the index is still the captured one.
   */
  lemma EvidenceIsStored(run: seq<State>, events: seq<Event>, cfg: Settings, i: nat, op: nat, limit: nat, most: nat,
                         e: Evidence)
    requires Run(run, events, cfg) && i < |run| && op in run[i].readers
    requires Emission(run[i].db, run[i].readers[op], limit, most).Ok?
    requires e in Emission(run[i].db, run[i].readers[op], limit, most).value
    ensures Cited(run[i].db.messages, run[i].readers[op].snapshot.maxSeq, e.candidate)
    ensures var r := run[i].readers[op];
            Retrieved(r.hits, r.pairs, e.candidate) || run[i].db.indexRevision == r.snapshot.indexRevision
  {
    RunKeepsInv(run, events, cfg, i);
    hide Run;
    InvParts(run[i], cfg);
    assert ReaderOk(run[i].db, run[i].readers[op]);
    hide *;
    EmittedIsCited(run[i].db, run[i].readers[op], limit, most, e);
  }

  lemma EmittedIsCited(db: Db, r: Reader, limit: nat, most: nat, e: Evidence)
    requires ReaderOk(db, r) && Emission(db, r, limit, most).Ok? && e in Emission(db, r, limit, most).value
    ensures Cited(db.messages, r.snapshot.maxSeq, e.candidate)
    ensures Retrieved(r.hits, r.pairs, e.candidate) || db.indexRevision == r.snapshot.indexRevision
  {
    hide Cited, Assembled, Lexical, HasKey;
    var tree := if r.chunks == [] || db.indexRevision != r.snapshot.indexRevision then [] else r.tree;
    AssembledFrom(r.hits, r.pairs, tree, limit, most, e);
  }

  /** A retrieval that a clear overtook emits nothing, in any later state. */
  lemma ClearedRetrievalEmitsNothing(run: seq<State>, events: seq<Event>, cfg: Settings, i: nat, j: nat, op: nat,
                                     r: Reader, limit: nat, most: nat)
    requires Run(run, events, cfg) && i < j < |run| && r.snapshot.generation == run[i].db.generation
    requires events[i] == Clears
    ensures Emission(run[j].db, r, limit, most) == Err(VersionConflict)
  {
    assert |run| == |events| + 1;
    hide *;
    RunKeepsInv(run, events, cfg, i);
    InvParts(run[i], cfg);
    StepOf(run, events, cfg, i);
    ClearRotates(run[i], cfg);
    RunAdvances(run, events, cfg, i + 1, j);
    OutlivedEmission(run[i + 1].db, run[j].db, r, limit, most);
  }

  lemma OutlivedEmission(db: Db, later: Db, r: Reader, limit: nat, most: nat)
    requires Advances(db, later) && r.snapshot.generation < db.generation
    ensures Emission(later, r, limit, most) == Err(VersionConflict)
  {
    hide Assembled;
  }

  lemma ClearRotates(s: State, cfg: Settings)
    requires DbOk(s.db, cfg.m)
    ensures Next(s, Clears, cfg).db.generation == s.db.generation + 1
  {
    hide TreeOk, RowsOk, ReceiptsOk;
  }

  /** The steps that write the store, and the ones that only read it. */
  function Written(s: State, e: Event, cfg: Settings): Db
    requires e.Ingests? ==> |e.batch.messages| == |e.batch.stamps|
  {
    match e
    case Ingests(b) => Ingest(s.db, b).db
    case ImportsWhole(records) => Import(s.db, records).db
    case ImportsBatch(op) =>
      if op !in s.importers then s.db
      else
        var r := ImportBatch(s.db, FirstBatch(s.importers[op].records), s.importers[op].expected);
        if r.Ok? then r.value else s.db
    case Clears => if Clear(s.db).Ok? then Clear(s.db).value else s.db
    case Publishes(op) =>
      if op !in s.indexers || s.indexers[op].proposal.None? then s.db
      else
        var r := Publish(s.db, s.indexers[op].proposal.value);
        if r.Ok? then r.value else s.db
    case _ => s.db
  }

  lemma NextWrites(s: State, e: Event, cfg: Settings)
    requires e.Ingests? ==> |e.batch.messages| == |e.batch.stamps|
    ensures Next(s, e, cfg).db == Written(s, e, cfg)
  {
    hide Ingest, Import, ImportBatch, Publish, Clear, IndexRead, CiteAll, CitePairs, Chunks, FirstBatch, Arrived, Hi;
  }

  /** What each kind of write does to the store. */
  ghost predicate Effect(s: State, e: Event, cfg: Settings, after: Db) {
    && Advances(s.db, after)
    && (!e.Clears? ==> forall k :: k in s.db.receipts ==> k in after.receipts && after.receipts[k] == s.db.receipts[k])
  }

  lemma SameDbEffect(s: State, e: Event, cfg: Settings)
    ensures Effect(s, e, cfg, s.db)
  {
    StaysPut(s.db);
  }

  lemma IngestedEffect(s: State, e: Event, b: Batch, cfg: Settings)
    requires RowsOk(s.db) && |b.messages| == |b.stamps|
    ensures Effect(s, e, cfg, Ingest(s.db, b).db)
  {
    IngestAdvances(s.db, b);
    IngestEffect(s.db, b);
    hide Ingest, RowsOk, Advances, Wrote, Appended, ContentsOk;
  }

  lemma ImportedEffect(s: State, e: Event, after: Db, cfg: Settings)
    requires Advances(s.db, after) && ImportedInto(s.db, after)
    ensures Effect(s, e, cfg, after)
  {
    hide Advances, RowsOk;
  }

  lemma PublishedEffect(s: State, e: Event, p: Proposal, cfg: Settings)
    requires Publish(s.db, p).Ok?
    ensures Effect(s, e, cfg, Publish(s.db, p).value)
  {
    PublishAdvances(s.db, p);
    PublishKeepsRows(s.db, p);
    hide Publish, Advances;
  }

  lemma ClearedEffect(s: State, cfg: Settings)
    requires Clear(s.db).Ok?
    ensures Effect(s, Clears, cfg, Clear(s.db).value)
  {
    ClearAdvances(s.db);
  }

  /** Every step advances the store, and every step but a clear keeps every receipt. */
  lemma StepEffect(s: State, e: Event, cfg: Settings)
    requires Inv(s, cfg) && Enabled(s, e, cfg)
    ensures Effect(s, e, cfg, Next(s, e, cfg).db)
  {
    assert Enabled(s, e, cfg) && e.Ingests? ==> |e.batch.messages| == |e.batch.stamps|;
    assert e.ImportsWhole? ==> StoreInvariants.Numbered(e.records);
    InvParts(s, cfg);
    NextWrites(s, e, cfg);
    DbParts(s.db, cfg.m);
    SameDbEffect(s, e, cfg);
    hide *;
    WrittenCases(s, e, cfg);
    match e
    case Ingests(b) => IngestedEffect(s, e, b, cfg);
    case ImportsWhole(records) =>
      ImportIs(s.db, records);
      ImportFromAdvances(s.db, records, None, 0);
      ImportFromInto(s.db, records, None, 0);
      ImportedEffect(s, e, Import(s.db, records).db, cfg);
    case ImportsBatch(op) =>
      if op in s.importers {
        ImporterAt(s.db, s.importers, op);
        ImporterParts(s.db, s.importers[op]);
        FileSplit(s.importers[op].records);
        var batch, expected := FirstBatch(s.importers[op].records), s.importers[op].expected;
        if ImportBatch(s.db, batch, expected).Ok? {
          ImportBatchAdvances(s.db, batch, expected);
          ImportBatchInto(s.db, batch, expected);
          ImportedEffect(s, e, ImportBatch(s.db, batch, expected).value, cfg);
        }
      }
    case Clears => if Clear(s.db).Ok? { ClearedEffect(s, cfg); }
    case Publishes(op) =>
      if op in s.indexers && s.indexers[op].proposal.Some? && Publish(s.db, s.indexers[op].proposal.value).Ok? {
        PublishedEffect(s, e, s.indexers[op].proposal.value, cfg);
      }
    case _ =>
  }

  lemma WrittenCases(s: State, e: Event, cfg: Settings)
    requires e.Ingests? ==> |e.batch.messages| == |e.batch.stamps|
    ensures e.Ingests? ==> Written(s, e, cfg) == Ingest(s.db, e.batch).db
    ensures e.ImportsWhole? ==> Written(s, e, cfg) == Import(s.db, e.records).db
    ensures e.ImportsBatch? && e.op in s.importers ==>
              var r := ImportBatch(s.db, FirstBatch(s.importers[e.op].records), s.importers[e.op].expected);
              Written(s, e, cfg) == if r.Ok? then r.value else s.db
    ensures e.ImportsBatch? && e.op !in s.importers ==> Written(s, e, cfg) == s.db
    ensures e.Clears? ==> Written(s, e, cfg) == if Clear(s.db).Ok? then Clear(s.db).value else s.db
    ensures e.Publishes? && e.op in s.indexers && s.indexers[e.op].proposal.Some? ==>
              var r := Publish(s.db, s.indexers[e.op].proposal.value);
              Written(s, e, cfg) == if r.Ok? then r.value else s.db
    ensures e.Publishes? && (e.op !in s.indexers || s.indexers[e.op].proposal.None?) ==> Written(s, e, cfg) == s.db
    ensures e.OpensImport? || e.ReadsIndex? || e.Plans? || e.OpensRetrieval? || e.VisitsTree? ==>
              Written(s, e, cfg) == s.db
  {
    hide Ingest, Import, ImportBatch, Publish, Clear, FirstBatch;
  }

  lemma EffectParts(s: State, e: Event, cfg: Settings, after: Db)
    requires Effect(s, e, cfg, after)
    ensures Advances(s.db, after)
    ensures !e.Clears? ==> forall k :: k in s.db.receipts ==>
              k in after.receipts && after.receipts[k] == s.db.receipts[k]
  {
    hide Advances;
  }

  lemma {:induction false} RunAdvances(run: seq<State>, events: seq<Event>, cfg: Settings, i: nat, j: nat)
    requires Run(run, events, cfg) && i <= j < |run|
    ensures Advances(run[i].db, run[j].db)
    decreases j
  {
    hide Advances, Inv, Next, Enabled;
    if i == j {
      StaysPut(run[i].db);
    } else {
      RunAdvances(run, events, cfg, i, j - 1);
      RunKeepsInv(run, events, cfg, j - 1);
      StepOf(run, events, cfg, j - 1);
      hide Run, StepAt, Effect;
      StepEffect(run[j - 1], events[j - 1], cfg);
      EffectParts(run[j - 1], events[j - 1], cfg, run[j].db);
      AdvancesTwice(run[i].db, run[j - 1].db, run[j].db);
    }
  }

  // ---------------------------------------------------------------- retries and sequence numbers

  /** The same request as far as its digest can tell; drawn identifiers and tool-call fields may differ. */
  predicate SameRequest(a: Batch, b: Batch) {
    a.source == b.source && a.key == b.key
      && RequestDigest(a.messages, a.source, a.session) == RequestDigest(b.messages, b.source, b.session)
  }

  /** Messages alike in everything but their tool-call fields. */
  predicate AlikeButTools(a: seq<InputMessage>, b: seq<InputMessage>) {
    |a| == |b| && forall i :: 0 <= i < |a| ==> WithoutTools(a[i]) == WithoutTools(b[i])
  }

  function WithoutTools(m: InputMessage): InputMessage {
    m.(toolCalls := None, toolCallId := None)
  }

  /** Two batches are the same request exactly when they agree in all the caller supplies but tool calls. */
  lemma SameRequestExactly(a: Batch, b: Batch)
    ensures SameRequest(a, b) <==>
            a.source == b.source && a.key == b.key && a.session == b.session && AlikeButTools(a.messages, b.messages)
  {
    var x, y := RequestDigest(a.messages, a.source, a.session), RequestDigest(b.messages, b.source, b.session);
    if SameRequest(a, b) {
      assert |x.items| == |y.items|;
      forall i | 0 <= i < |a.messages| ensures WithoutTools(a.messages[i]) == WithoutTools(b.messages[i]) {
        assert x.items[i] == y.items[i];
      }
    } else if AlikeButTools(a.messages, b.messages) && a.source == b.source && a.session == b.session {
      forall i | 0 <= i < |a.messages| ensures x.items[i] == y.items[i] {
        assert WithoutTools(a.messages[i]) == WithoutTools(b.messages[i]);
      }
      assert x.items == y.items;
    }
  }

  /** So a batch with other tool calls under the same key passes for a retry. */
  lemma OtherToolCallsPass(b: Batch) returns (retry: Batch)
    requires b.messages != []
    ensures SameRequest(b, retry) && |retry.messages| == |b.messages| && retry.stamps == b.stamps
    ensures PayloadOf(retry.messages[0]) != PayloadOf(b.messages[0])
  {
    var m := b.messages[0];
    var other := m.(toolCalls := if m.toolCalls == None then Some("") else None);
    retry := b.(messages := [other] + b.messages[1..]);
    forall i | 0 <= i < |b.messages| ensures WithoutTools(b.messages[i]) == WithoutTools(retry.messages[i]) {
      if i > 0 { assert retry.messages[i] == b.messages[1..][i - 1]; }
    }
    SameRequestExactly(b, retry);
  }

  /** What a batch under a used key meets. */
  function Decided(b: Batch, retry: Batch, r: Receipt): Reply {
    if retry.messages == [] || |retry.messages| > MAX_MESSAGES_PER_BATCH then Refused(InvalidInput)
    else if SameRequest(b, retry) then Replayed(r)
    else Refused(IdempotencyConflict)
  }

  lemma ReplayOf(db: Db, b: Batch, retry: Batch, r: Receipt)
    requires |retry.messages| == |retry.stamps| && db.historyRevision == db.searchRevision
    requires retry.source == b.source && retry.key == b.key
    requires (b.source, b.key) in db.receipts && db.receipts[(b.source, b.key)] == r
    requires r.digest == RequestDigest(b.messages, b.source, b.session)
    ensures Ingest(db, retry) == Ingested(db, Decided(b, retry, r))
  {
    hide RequestDigest;
  }

  lemma SameSize(a: Batch, b: Batch)
    requires SameRequest(a, b)
    ensures |a.messages| == |b.messages|
  {
    SameRequestExactly(a, b);
  }

  ghost predicate HasReceipt(db: Db, source: string, key: string, r: Receipt) {
    (source, key) in db.receipts && db.receipts[(source, key)] == r
  }

  lemma StepKeepsReceipts(s: State, e: Event, cfg: Settings, source: string, key: string, r: Receipt)
    requires Inv(s, cfg) && Enabled(s, e, cfg) && !e.Clears? && HasReceipt(s.db, source, key, r)
    ensures HasReceipt(Next(s, e, cfg).db, source, key, r)
  {
    StepEffect(s, e, cfg);
    EffectParts(s, e, cfg, Next(s, e, cfg).db);
    hide Inv, Next, Enabled, Effect, Advances;
  }

  lemma {:induction false} ReceiptsLast(run: seq<State>, events: seq<Event>, cfg: Settings, i: nat, j: nat,
                                        source: string, key: string, r: Receipt)
    requires Run(run, events, cfg) && i <= j < |run| && HasReceipt(run[i].db, source, key, r)
    requires forall k :: i <= k < j ==> !events[k].Clears?
    ensures HasReceipt(run[j].db, source, key, r)
    decreases j
  {
    hide Inv, Next, Enabled, HasReceipt;
    if i < j {
      ReceiptsLast(run, events, cfg, i, j - 1, source, key, r);
      RunKeepsInv(run, events, cfg, j - 1);
      StepOf(run, events, cfg, j - 1);
      hide Run, StepAt;
      StepKeepsReceipts(run[j - 1], events[j - 1], cfg, source, key, r);
    }
  }

  /**
   * Between clears and amid any other steps, a batch under the key of a committed one changes nothing: the
   * same request gets the same receipt back, any other is refused.
   */
  lemma RetryIsReplayed(run: seq<State>, events: seq<Event>, cfg: Settings, i: nat, j: nat, b: Batch, retry: Batch)
    requires Run(run, events, cfg) && i < j < |run| && events[i] == Ingests(b) && |b.messages| == |b.stamps|
    requires Ingest(run[i].db, b).reply.Committed? && |retry.messages| == |retry.stamps|
    requires retry.source == b.source && retry.key == b.key
    requires forall k :: i < k < j ==> !events[k].Clears?
    ensures Ingest(run[j].db, retry) == Ingested(run[j].db, Decided(b, retry, Ingest(run[i].db, b).reply.receipt))
    ensures SameRequest(b, retry) ==> Ingest(run[j].db, retry).reply == Replayed(Ingest(run[i].db, b).reply.receipt)
  {
    hide *;
    RunLength(run, events, cfg);
    var r := Ingest(run[i].db, b).reply.receipt;
    ReceiptLeft(run, events, cfg, i, b);
    ReceiptsLast(run, events, cfg, i + 1, j, b.source, b.key, r);
    RunKeepsInv(run, events, cfg, j);
    InvParts(run[j], cfg);
    DbParts(run[j].db, cfg.m);
    ReceiptAt(run[j].db, b.source, b.key, r);
    ReplayOf(run[j].db, b, retry, r);
    if SameRequest(b, retry) { SameSize(b, retry); }
    ReplayedSame(b, retry, r);
  }

  /** What a committed batch leaves behind: its receipt, of a request that was not refused for its size. */
  lemma ReceiptLeft(run: seq<State>, events: seq<Event>, cfg: Settings, i: nat, b: Batch)
    requires Run(run, events, cfg) && i < |events| && |run| == |events| + 1 && events[i] == Ingests(b)
    requires |b.messages| == |b.stamps| && Ingest(run[i].db, b).reply.Committed?
    ensures HasReceipt(run[i + 1].db, b.source, b.key, Ingest(run[i].db, b).reply.receipt)
    ensures b.messages != [] && |b.messages| <= MAX_MESSAGES_PER_BATCH
    ensures Ingest(run[i].db, b).reply.receipt.digest == RequestDigest(b.messages, b.source, b.session)
  {
    hide *;
    RunKeepsInv(run, events, cfg, i);
    InvParts(run[i], cfg);
    DbParts(run[i].db, cfg.m);
    StepOf(run, events, cfg, i);
    IngestNext(run[i], b, cfg);
    CommittedSize(run[i].db, b);
    CommittedReceipt(run[i].db, b);
  }

  lemma CommittedReceipt(db: Db, b: Batch)
    requires RowsOk(db) && |b.messages| == |b.stamps| && Ingest(db, b).reply.Committed?
    ensures HasReceipt(Ingest(db, b).db, b.source, b.key, Ingest(db, b).reply.receipt)
  {
    IngestEffect(db, b);
    hide Ingest, RowsOk, Wrote, ContentsOk, Appended;
  }

  lemma CommittedSize(db: Db, b: Batch)
    requires |b.messages| == |b.stamps| && Ingest(db, b).reply.Committed?
    ensures b.messages != [] && |b.messages| <= MAX_MESSAGES_PER_BATCH
    ensures Ingest(db, b).reply.receipt.digest == RequestDigest(b.messages, b.source, b.session)
  {
    hide InsertFrom;
  }

  lemma ReplayedSame(b: Batch, retry: Batch, r: Receipt)
    requires SameRequest(b, retry) ==> |b.messages| == |retry.messages|
    requires b.messages != [] && |b.messages| <= MAX_MESSAGES_PER_BATCH
    ensures SameRequest(b, retry) ==> Decided(b, retry, r) == Replayed(r)
  {
    hide SameRequest;
  }

  lemma ReceiptAt(db: Db, source: string, key: string, r: Receipt)
    requires HasReceipt(db, source, key, r)
    ensures (source, key) in db.receipts && db.receipts[(source, key)] == r
  {}

  /**
   * A number assigned by an ingest exceeds every number stored in any earlier state of the run, even
   * one since cleared; and every number the batch was given lies in its receipt.
   */
  lemma NewNumbersExceedAll(run: seq<State>, events: seq<Event>, cfg: Settings, i: nat, j: nat, b: Batch,
                            earlier: Message, q: nat)
    requires Run(run, events, cfg) && i <= j < |events| && events[j] == Ingests(b) && |b.messages| == |b.stamps|
    requires Ingest(run[j].db, b).reply.Committed? && earlier in run[i].db.messages
    requires InReceipt(Ingest(run[j].db, b).reply.receipt, q)
    ensures earlier.seqNo < q && StoredSeq(run[j + 1].db.messages, q) && !StoredSeq(run[j].db.messages, q)
  {
    RunKeepsInv(run, events, cfg, i);
    RunKeepsInv(run, events, cfg, j);
    InvParts(run[i], cfg);
    InvParts(run[j], cfg);
    DbParts(run[i].db, cfg.m);
    DbParts(run[j].db, cfg.m);
    RunAdvances(run, events, cfg, i, j);
    Within(run[i].db, earlier);
    IngestEffect(run[j].db, b);
    assert StepAt(run, events, cfg, j);
    IngestNext(run[j], b, cfg);
    var before, after := run[j].db, run[j + 1].db;
    AppendedSeqs(before.messages, after.messages, before.highWater + 1, after.highWater + 1);
    hide Ingest, Inv, DbOk, Next, Enabled, Run, RowsOk, TreeOk, ReceiptsOk, Appended, ContentsOk;
    assert before.highWater < q <= after.highWater;
  }

  /**
   * In every reachable state the imported messages and the receipts' ranges divide the stored messages, and no two
   * receipts overlap.
   */
  lemma ReceiptsPartitionIngested(run: seq<State>, events: seq<Event>, cfg: Settings, i: nat, m: Message)
    requires Run(run, events, cfg) && i < |run| && m in run[i].db.messages
    ensures m.seqNo in run[i].imported <==> !Receipted(run[i].db.receipts, m.seqNo)
    ensures ReceiptsDisjoint(run[i].db.receipts) && ReceiptsStored(run[i].db)
  {
    RunKeepsInv(run, events, cfg, i);
    InvParts(run[i], cfg);
    hide Run, Inv, RowsOk, TreeOk, Receipted, ReceiptsStored, ReceiptsDisjoint, StoredSeq;
    assert Origin(run[i].db, run[i].imported, m.seqNo);
  }
}
