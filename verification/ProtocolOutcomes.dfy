/**
 * What a run hands back: which publications, imports and retrievals are served, and with what, said over the
 * steps that other callers took in between.
 */
module ProtocolOutcomes {
  import opened Wrappers
  import opened Sequences
  import opened Records
  import opened Hierarchy
  import opened Transactions
  import opened StoreInvariants
  import opened PublishInvariants
  import opened Indexing
  import opened IndexRuns
  import Relevance
  import opened Retrieval
  import Projections
  import IngestContents
  import IngestDecisions
  import opened Protocol
  import opened ProtocolSafety

  // ---------------------------------------------------------------- what raises which revision

  /** A publication that the store accepts. */
  ghost predicate Accepts(s: State, e: Event) {
    && e.Publishes? && e.op in s.indexers && s.indexers[e.op].proposal.Some?
    && Publish(s.db, s.indexers[e.op].proposal.value).Ok?
  }

  /** The same messages and the same receipts. */
  ghost predicate SameHistory(db: Db, after: Db) {
    after.messages == db.messages && after.receipts == db.receipts
  }

  /** What writes to the history do: rows are added, the tree stays, and the revision tells whether anything changed. */
  ghost predicate OnlyHistory(db: Db, after: Db) {
    && after.generation == db.generation && after.indexRevision == db.indexRevision && after.forest == db.forest
    && after.history == db.history && db.messages <= after.messages && db.historyRevision <= after.historyRevision
    && (after.historyRevision == db.historyRevision <==> SameHistory(db, after))
  }

  lemma IngestOnlyHistory(db: Db, b: Batch)
    requires RowsOk(db) && |b.messages| == |b.stamps|
    ensures OnlyHistory(db, Ingest(db, b).db)
  {
    IngestEffect(db, b);
    hide Ingest, RowsOk, ContentsOk, Appended;
    var r := Ingest(db, b);
    if r.reply.Committed? { assert (b.source, b.key) in r.db.receipts; }
  }

  lemma ImportBatchOnlyHistory(db: Db, records: seq<Message>, expected: Option<nat>)
    requires RowsOk(db) && StoreInvariants.Numbered(records) && ImportBatch(db, records, expected).Ok?
    ensures var after := ImportBatch(db, records, expected).value;
            OnlyHistory(db, after) && RowsOk(after) && after.receipts == db.receipts
  {
    ImportBatchEffect(db, records, expected);
    hide ImportBatch, RowsOk, Sourced;
  }

  lemma {:induction false} ImportOnlyHistory(db: Db, records: seq<Message>, expected: Option<nat>, count: nat)
    requires RowsOk(db) && StoreInvariants.Numbered(records)
    ensures var after := ImportFrom(db, records, expected, count).db;
            OnlyHistory(db, after) && after.receipts == db.receipts
    decreases |records|
  {
    hide RowsOk, ImportBatch;
    var batch := if |records| <= IMPORT_BATCH_SIZE then records else records[..IMPORT_BATCH_SIZE];
    var step := ImportBatch(db, batch, expected);
    if step.Ok? {
      ImportBatchOnlyHistory(db, batch, expected);
      if |records| > IMPORT_BATCH_SIZE {
        ImportOnlyHistory(step.value, records[IMPORT_BATCH_SIZE..], Some(db.historyRevision + 1), count + |batch|);
      }
    }
  }

  /** The step wiped the history or changed it. */
  ghost predicate Touches(e: Event, db: Db, after: Db) {
    e.Clears? || !SameHistory(db, after)
  }

  /** What one step does to the revisions. */
  ghost predicate Raises(s: State, e: Event, after: Db) {
    && after.generation == s.db.generation + (if e.Clears? then 1 else 0)
    && after.indexRevision == s.db.indexRevision + (if e.Clears? || Accepts(s, e) then 1 else 0)
    && s.db.historyRevision <= after.historyRevision
    && (after.historyRevision == s.db.historyRevision <==> !Touches(e, s.db, after))
    && (e.Clears? || Accepts(s, e) || after.forest == s.db.forest)
    && after.history == s.db.history
  }

  /**
   * A clear begins a generation, a clear or an accepted publication raises the index revision, and the history
   * revision rises with every step that wipes or changes messages or receipts and with no other.
   */
  lemma StepRevisions(s: State, e: Event, cfg: Settings)
    requires Inv(s, cfg) && Enabled(s, e, cfg)
    ensures Raises(s, e, Next(s, e, cfg).db)
  {
    assert Enabled(s, e, cfg) && e.Ingests? ==> |e.batch.messages| == |e.batch.stamps|;
    assert e.ImportsWhole? ==> StoreInvariants.Numbered(e.records);
    InvParts(s, cfg);
    NextWrites(s, e, cfg);
    DbParts(s.db, cfg.m);
    AcceptsIs(s, e);
    hide *;
    WrittenCases(s, e, cfg);
    StayRaises(s, e);
    match e
    case Ingests(b) =>
      IngestOnlyHistory(s.db, b);
      WriteRaises(s, e, Ingest(s.db, b).db);
    case ImportsWhole(records) =>
      ImportIs(s.db, records);
      ImportOnlyHistory(s.db, records, None, 0);
      WriteRaises(s, e, Import(s.db, records).db);
    case ImportsBatch(op) =>
      if op in s.importers {
        ImporterAt(s.db, s.importers, op);
        ImporterParts(s.db, s.importers[op]);
        FileSplit(s.importers[op].records);
        var batch, expected := FirstBatch(s.importers[op].records), s.importers[op].expected;
        if ImportBatch(s.db, batch, expected).Ok? {
          ImportBatchOnlyHistory(s.db, batch, expected);
          WriteRaises(s, e, ImportBatch(s.db, batch, expected).value);
        }
      }
    case Clears =>
      ClearKeepsOk(s.db, cfg.m);
      ClearRaises(s, e);
    case Publishes(op) =>
      if Accepts(s, e) { PublishRaises(s, e); }
    case _ =>
  }

  lemma AcceptsIs(s: State, e: Event)
    ensures Accepts(s, e) <==>
              && e.Publishes? && e.op in s.indexers && s.indexers[e.op].proposal.Some?
              && Publish(s.db, s.indexers[e.op].proposal.value).Ok?
  {
    hide Publish;
  }

  lemma StayRaises(s: State, e: Event)
    ensures !e.Clears? && !Accepts(s, e) ==> Raises(s, e, s.db)
  {
    hide Accepts;
  }

  lemma WriteRaises(s: State, e: Event, after: Db)
    requires (e.Ingests? || e.ImportsWhole? || e.ImportsBatch?) && OnlyHistory(s.db, after)
    ensures Raises(s, e, after)
  {}

  lemma ClearRaises(s: State, e: Event)
    requires e.Clears? && Clear(s.db).Ok?
    ensures Raises(s, e, Clear(s.db).value)
  {}

  lemma PublishRaises(s: State, e: Event)
    requires Accepts(s, e)
    ensures Raises(s, e, Publish(s.db, s.indexers[e.op].proposal.value).value)
  {}

  // ---------------------------------------------------------------- stretches of a run

  /** No step of the stretch wiped or changed the history. */
  ghost predicate Quiet(run: seq<State>, events: seq<Event>, i: nat, j: nat)
    requires j <= |events| && |run| == |events| + 1
  {
    forall k :: i <= k < j ==> !Touches(events[k], run[k].db, run[k+1].db)
  }

  /** No step of the stretch wiped or replaced the tree. */
  ghost predicate TreeLasts(run: seq<State>, events: seq<Event>, i: nat, j: nat)
    requires j <= |events| && |run| == |events| + 1
  {
    forall k :: i <= k < j ==> !events[k].Clears? && !Accepts(run[k], events[k])
  }

  ghost predicate NoClear(events: seq<Event>, i: nat, j: nat)
    requires j <= |events|
  {
    forall k :: i <= k < j ==> !events[k].Clears?
  }

  /** Over any stretch, each revision still stands exactly if no step of the kind that raises it was taken. */
  lemma {:induction false} RevisionsTell(run: seq<State>, events: seq<Event>, cfg: Settings, i: nat, j: nat)
    requires Run(run, events, cfg) && i <= j < |run|
    ensures |run| == |events| + 1 && run[j].db.history == run[i].db.history
    ensures var a, b := run[i].db, run[j].db;
            && a.generation <= b.generation && (a.generation == b.generation <==> NoClear(events, i, j))
            && a.indexRevision <= b.indexRevision
            && (a.indexRevision == b.indexRevision <==> TreeLasts(run, events, i, j))
            && a.historyRevision <= b.historyRevision
            && (a.historyRevision == b.historyRevision <==> Quiet(run, events, i, j))
  {
    RunLength(run, events, cfg);
    hide *;
    if i == j {
      NoStretch(run, events, i);
    } else {
      RevisionsTell(run, events, cfg, i, j - 1);
      RunKeepsInv(run, events, cfg, j - 1);
      StepOf(run, events, cfg, j - 1);
      StepRevisions(run[j - 1], events[j - 1], cfg);
      RaisedParts(run[j - 1], events[j - 1], run[j].db);
      LongerStretch(run, events, i, j);
    }
  }

  lemma NoStretch(run: seq<State>, events: seq<Event>, i: nat)
    requires i <= |events| && |run| == |events| + 1
    ensures Quiet(run, events, i, i) && TreeLasts(run, events, i, i) && NoClear(events, i, i)
  {}

  lemma LongerStretch(run: seq<State>, events: seq<Event>, i: nat, j: nat)
    requires i < j <= |events| && |run| == |events| + 1
    ensures Quiet(run, events, i, j) <==>
            Quiet(run, events, i, j - 1) && !Touches(events[j-1], run[j-1].db, run[j].db)
    ensures TreeLasts(run, events, i, j) <==>
            TreeLasts(run, events, i, j - 1) && !events[j-1].Clears? && !Accepts(run[j-1], events[j-1])
    ensures NoClear(events, i, j) <==> NoClear(events, i, j - 1) && !events[j-1].Clears?
  {
    hide Touches, Accepts;
  }

  lemma RaisedParts(s: State, e: Event, after: Db)
    requires Raises(s, e, after)
    ensures after.generation == s.db.generation + (if e.Clears? then 1 else 0)
    ensures after.indexRevision == s.db.indexRevision + (if e.Clears? || Accepts(s, e) then 1 else 0)
    ensures s.db.historyRevision <= after.historyRevision && after.history == s.db.history
    ensures after.historyRevision == s.db.historyRevision <==> !Touches(e, s.db, after)
  {
    hide Touches, Accepts;
  }

  // ---------------------------------------------------------------- publications

  /** Between `i` and `j` no other step reads for or publishes from this index call. */
  ghost predicate SameCall(events: seq<Event>, i: nat, j: nat, op: nat)
    requires j <= |events|
  {
    forall k :: i < k < j ==> events[k] != Publishes(op) && !(events[k].ReadsIndex? && events[k].op == op)
  }

  lemma NextKeepsCapture(s: State, e: Event, cfg: Settings, op: nat)
    requires e.Ingests? ==> |e.batch.messages| == |e.batch.stamps|
    requires op in s.indexers && e != Publishes(op) && !(e.ReadsIndex? && e.op == op)
    ensures op in Next(s, e, cfg).indexers && Next(s, e, cfg).indexers[op].capture == s.indexers[op].capture
  {
    hide Ingest, Import, ImportBatch, Publish, Clear, IndexRead, CiteAll, CitePairs, InSpan, Chunks, FirstBatch,
         Arrived, Hi;
  }

  lemma {:induction false} CaptureLasts(run: seq<State>, events: seq<Event>, cfg: Settings, i: nat, j: nat, op: nat,
                                        rebuild: bool)
    requires Run(run, events, cfg) && i < j < |run| && |run| == |events| + 1
    requires events[i] == ReadsIndex(op, rebuild) && SameCall(events, i, j, op)
    ensures op in run[j].indexers && IndexRead(run[i].db, rebuild) == Ok(run[j].indexers[op].capture)
  {
    hide *;
    RunKeepsInv(run, events, cfg, j - 1);
    StepOf(run, events, cfg, j - 1);
    InvParts(run[j - 1], cfg);
    DbParts(run[j - 1].db, cfg.m);
    if j == i + 1 {
      ReadIndexNext(run[i], op, rebuild, cfg);
      ReadSucceeds(run[i].db, rebuild);
    } else {
      EarlierCall(events, i, j, op);
      CaptureLasts(run, events, cfg, i, j - 1, op, rebuild);
      StampsEnabled(run[j - 1], events[j - 1], cfg);
      NextKeepsCapture(run[j - 1], events[j - 1], cfg, op);
    }
  }

  lemma ReadSucceeds(db: Db, rebuild: bool)
    requires db.historyRevision == db.searchRevision
    ensures IndexRead(db, rebuild).Ok? && Current(db, IndexRead(db, rebuild).value)
  {}

  lemma EarlierCall(events: seq<Event>, i: nat, j: nat, op: nat)
    requires i + 1 < j <= |events| && SameCall(events, i, j, op)
    ensures SameCall(events, i, j - 1, op)
    ensures events[j-1] != Publishes(op) && !(events[j-1].ReadsIndex? && events[j-1].op == op)
  {}

  lemma StampsEnabled(s: State, e: Event, cfg: Settings)
    requires Enabled(s, e, cfg)
    ensures e.Ingests? ==> |e.batch.messages| == |e.batch.stamps|
  {
    hide Commits, StoreInvariants.Numbered;
  }

  /**
   * A publication is accepted exactly when, since its index call read the store, no step wiped or changed the history
   * and none replaced the tree.
   */
  lemma PublicationAccepted(run: seq<State>, events: seq<Event>, cfg: Settings, i: nat, j: nat, op: nat, rebuild: bool)
    requires Run(run, events, cfg) && i < j < |events| && |run| == |events| + 1
    requires events[i] == ReadsIndex(op, rebuild) && SameCall(events, i, j, op) && events[j] == Publishes(op)
    requires op in run[j].indexers && run[j].indexers[op].proposal.Some?
    ensures Accepts(run[j], events[j]) <==> Quiet(run, events, i, j) && TreeLasts(run, events, i, j)
  {
    hide *;
    CaptureLasts(run, events, cfg, i, j, op, rebuild);
    RunKeepsInv(run, events, cfg, i);
    RunKeepsInv(run, events, cfg, j);
    InvParts(run[i], cfg);
    InvParts(run[j], cfg);
    DbParts(run[i].db, cfg.m);
    ReadSucceeds(run[i].db, rebuild);
    IndexerDrop(run[j].db, cfg, run[j].indexers, op);
    AcceptedIff(run[j].db, cfg, run[j].indexers[op]);
    AcceptsIs(run[j], events[j]);
    RevisionsTell(run, events, cfg, i, j);
    StillCurrent(run[i].db, run[j].db, run[j].indexers[op].capture);
    TreeLastsNoClear(run, events, i, j);
  }

  lemma StillCurrent(db: Db, later: Db, c: Capture)
    requires Current(db, c)
    ensures Current(later, c) <==>
              && later.historyRevision == db.historyRevision && later.indexRevision == db.indexRevision
              && later.generation == db.generation
  {}

  lemma TreeLastsNoClear(run: seq<State>, events: seq<Event>, i: nat, j: nat)
    requires j <= |events| && |run| == |events| + 1
    ensures TreeLasts(run, events, i, j) ==> NoClear(events, i, j)
  {
    hide Accepts;
  }

  // ---------------------------------------------------------------- imports in other processes

  /** The records of a file under this history. */
  function Under(history: string, records: seq<Message>): (r: seq<Message>)
    ensures |r| == |records|
  {
    seq(|records|, k requires 0 <= k < |records| => records[k].(history := history))
  }

  /**
   * An import of a file that has committed its first `n` records: while the history is as it left it, the store holds
   * exactly those.
   */
  ghost predicate Halfway(db: Db, file: seq<Message>, im: Importer, n: nat) {
    && n <= |file| && im.records == file[n..] && (im.expected.None? <==> n == 0)
    && (im.expected.Some? ==>
          && im.expected.value <= db.historyRevision
          && (im.expected.value == db.historyRevision ==> db.messages == Under(db.history, file[..n])))
  }

  ghost predicate Underway(db: Db, file: seq<Message>, im: Importer) {
    exists n: nat :: Halfway(db, file, im, n)
  }

  lemma NextKeepsImporter(s: State, e: Event, cfg: Settings, op: nat)
    requires e.Ingests? ==> |e.batch.messages| == |e.batch.stamps|
    requires e != ImportsBatch(op) && !(e.OpensImport? && e.op == op)
    ensures op in Next(s, e, cfg).importers <==> op in s.importers
    ensures op in s.importers ==> Next(s, e, cfg).importers[op] == s.importers[op]
  {
    hide Ingest, Import, ImportBatch, Publish, Clear, IndexRead, CiteAll, CitePairs, InSpan, Chunks, FirstBatch,
         Arrived, Hi, Remaining;
  }

  lemma UnderwayStays(db: Db, later: Db, file: seq<Message>, im: Importer)
    requires Underway(db, file, im) && db.historyRevision <= later.historyRevision && later.history == db.history
    requires later.historyRevision == db.historyRevision ==> later.messages == db.messages
    ensures Underway(later, file, im)
  {
    hide Under;
    var n: nat :| Halfway(db, file, im, n);
    assert Halfway(later, file, im, n);
  }

  /** A committed batch leaves the store with the records so far. */
  lemma BatchMovesHalfway(db: Db, file: seq<Message>, im: Importer, n: nat)
    requires RowsOk(db) && db.historyRevision == db.searchRevision && Halfway(db, file, im, n)
    requires ImportBatch(db, FirstBatch(im.records), im.expected).Ok?
    ensures var after, more := ImportBatch(db, FirstBatch(im.records), im.expected).value, |FirstBatch(im.records)|;
            && after.messages == Under(db.history, file[..n + more])
            && (|im.records| > IMPORT_BATCH_SIZE ==> after.historyRevision == db.historyRevision + 1)
  {
    var batch := FirstBatch(im.records);
    IngestDecisions.ImportDecides(db, batch, im.expected);
    assert db.messages == Under(db.history, file[..n]);
    assert batch == file[n..n + |batch|];
    hide ImportBatch, RowsOk;
    assert IngestDecisions.With(db, batch) == Under(db.history, file[..n + |batch|]);
  }

  lemma StepKeepsUnderway(s: State, e: Event, cfg: Settings, op: nat, file: seq<Message>)
    requires Inv(s, cfg) && Enabled(s, e, cfg) && !(e.OpensImport? && e.op == op)
    requires op in s.importers ==> Underway(s.db, file, s.importers[op])
    ensures op in Next(s, e, cfg).importers ==>
              op in s.importers && Underway(Next(s, e, cfg).db, file, Next(s, e, cfg).importers[op])
  {
    InvParts(s, cfg);
    DbParts(s.db, cfg.m);
    hide *;
    if e == ImportsBatch(op) {
      if op in s.importers {
        var im := s.importers[op];
        if ImportBatch(s.db, FirstBatch(im.records), im.expected).Ok? {
          ImportBatchNext(s, op, cfg);
          if |im.records| > IMPORT_BATCH_SIZE { RemainingUnderway(s, op, file); }
        } else {
          ImportDroppedNext(s, op, cfg);
        }
      } else {
        NoImportNext(s, op, cfg);
      }
    } else {
      StampsEnabled(s, e, cfg);
      NextKeepsImporter(s, e, cfg, op);
      StepRevisions(s, e, cfg);
      RaisedParts(s, e, Next(s, e, cfg).db);
      if op in s.importers {
        TouchedOrSame(e, s.db, Next(s, e, cfg).db);
        UnderwayStays(s.db, Next(s, e, cfg).db, file, s.importers[op]);
      }
    }
  }

  lemma TouchedOrSame(e: Event, db: Db, after: Db)
    ensures !Touches(e, db, after) ==> after.messages == db.messages
  {}

  lemma NoImportNext(s: State, op: nat, cfg: Settings)
    requires op !in s.importers
    ensures Next(s, ImportsBatch(op), cfg) == s
  {}

  lemma RemainingUnderway(s: State, op: nat, file: seq<Message>)
    requires RowsOk(s.db) && s.db.historyRevision == s.db.searchRevision && op in s.importers
    requires Underway(s.db, file, s.importers[op]) && |s.importers[op].records| > IMPORT_BATCH_SIZE
    requires ImportBatch(s.db, FirstBatch(s.importers[op].records), s.importers[op].expected).Ok?
    ensures var im := s.importers[op];
            Underway(ImportBatch(s.db, FirstBatch(im.records), im.expected).value, file, Remaining(im, s.db))
  {
    var im := s.importers[op];
    var n: nat :| Halfway(s.db, file, im, n);
    BatchMovesHalfway(s.db, file, im, n);
    hide ImportBatch, RowsOk, Under;
    assert file[n..][IMPORT_BATCH_SIZE..] == file[n + IMPORT_BATCH_SIZE..];
    assert Halfway(ImportBatch(s.db, FirstBatch(im.records), im.expected).value, file, Remaining(im, s.db),
                   n + IMPORT_BATCH_SIZE);
  }

  /** Between `i` and `j` no other import begins under this operation. */
  ghost predicate SameImport(events: seq<Event>, i: nat, j: nat, op: nat)
    requires j <= |events|
  {
    forall k :: i < k < j ==> !(events[k].OpensImport? && events[k].op == op)
  }

  lemma EarlierImport(events: seq<Event>, i: nat, j: nat, op: nat)
    requires i + 1 < j <= |events| && SameImport(events, i, j, op)
    ensures SameImport(events, i, j - 1, op) && !(events[j-1].OpensImport? && events[j-1].op == op)
  {}

  lemma {:induction false} ImportUnderway(run: seq<State>, events: seq<Event>, cfg: Settings, i: nat, j: nat, op: nat,
                                          file: seq<Message>)
    requires Run(run, events, cfg) && i < j < |run| && |run| == |events| + 1
    requires events[i] == OpensImport(op, file) && SameImport(events, i, j, op)
    ensures op in run[j].importers ==> Underway(run[j].db, file, run[j].importers[op])
  {
    hide *;
    RunKeepsInv(run, events, cfg, j - 1);
    StepOf(run, events, cfg, j - 1);
    if j == i + 1 {
      OpenedUnderway(run[i], op, file, cfg);
    } else {
      EarlierImport(events, i, j, op);
      ImportUnderway(run, events, cfg, i, j - 1, op, file);
      StepKeepsUnderway(run[j - 1], events[j - 1], cfg, op, file);
    }
  }

  lemma OpenedUnderway(s: State, op: nat, file: seq<Message>, cfg: Settings)
    ensures var s2 := Next(s, OpensImport(op, file), cfg);
            op in s2.importers && Underway(s2.db, file, s2.importers[op])
  {
    assert Halfway(s.db, file, Importer(file, None, AscendingFile(file)), 0);
  }

  /**
   * An import whose last batch is committed leaves exactly its file's records under the store's history, whatever
   * the other callers did between its batches.
   */
  lemma ImportedExactly(run: seq<State>, events: seq<Event>, cfg: Settings, i: nat, j: nat, op: nat,
                        file: seq<Message>)
    requires Run(run, events, cfg) && i < j < |events| && |run| == |events| + 1
    requires events[i] == OpensImport(op, file) && SameImport(events, i, j, op) && events[j] == ImportsBatch(op)
    requires op in run[j].importers && |run[j].importers[op].records| <= IMPORT_BATCH_SIZE
    requires ImportBatch(run[j].db, FirstBatch(run[j].importers[op].records), run[j].importers[op].expected).Ok?
    ensures op !in run[j+1].importers && run[j+1].db.messages == Under(run[j].db.history, file)
  {
    hide *;
    RunKeepsInv(run, events, cfg, j);
    StepOf(run, events, cfg, j);
    InvParts(run[j], cfg);
    DbParts(run[j].db, cfg.m);
    ImportUnderway(run, events, cfg, i, j, op, file);
    ImportBatchNext(run[j], op, cfg);
    LastBatch(run[j], op, file);
  }

  lemma LastBatch(s: State, op: nat, file: seq<Message>)
    requires RowsOk(s.db) && s.db.historyRevision == s.db.searchRevision && op in s.importers
    requires Underway(s.db, file, s.importers[op]) && |s.importers[op].records| <= IMPORT_BATCH_SIZE
    requires ImportBatch(s.db, FirstBatch(s.importers[op].records), s.importers[op].expected).Ok?
    ensures var im := s.importers[op];
            ImportBatch(s.db, FirstBatch(im.records), im.expected).value.messages == Under(s.db.history, file)
  {
    var im := s.importers[op];
    var n: nat :| Halfway(s.db, file, im, n);
    BatchMovesHalfway(s.db, file, im, n);
    hide ImportBatch, RowsOk, Under;
    assert file[..n + |im.records|] == file;
  }

  lemma {:induction false} ImporterLasts(run: seq<State>, events: seq<Event>, cfg: Settings, i: nat, j: nat, op: nat)
    requires Run(run, events, cfg) && i <= j < |run| && |run| == |events| + 1
    requires forall k :: i <= k < j ==> events[k] != ImportsBatch(op) && !(events[k].OpensImport? && events[k].op == op)
    ensures op in run[j].importers <==> op in run[i].importers
    ensures op in run[i].importers ==> run[j].importers[op] == run[i].importers[op]
  {
    hide *;
    if i < j {
      ImporterLasts(run, events, cfg, i, j - 1, op);
      StepOf(run, events, cfg, j - 1);
      StampsEnabled(run[j - 1], events[j - 1], cfg);
      NextKeepsImporter(run[j - 1], events[j - 1], cfg, op);
    }
  }

  /**
   * The next batch of an import is refused because the history moved on exactly when, since its last batch, some
   * step wiped or changed the history; its first batch never is.
   */
  lemma NextBatchRefused(run: seq<State>, events: seq<Event>, cfg: Settings, i: nat, j: nat, op: nat)
    requires Run(run, events, cfg) && i < j < |events| && |run| == |events| + 1
    requires events[i] == ImportsBatch(op) && events[j] == ImportsBatch(op)
    requires op in run[i].importers && op in run[i+1].importers
    requires forall k :: i < k < j ==> events[k] != ImportsBatch(op) && !(events[k].OpensImport? && events[k].op == op)
    ensures op in run[j].importers
    ensures var im := run[j].importers[op];
            ImportBatch(run[j].db, FirstBatch(im.records), im.expected) == Err(VersionConflict) <==>
            !Quiet(run, events, i + 1, j)
  {
    hide *;
    RunKeepsInv(run, events, cfg, i);
    RunKeepsInv(run, events, cfg, j);
    StepOf(run, events, cfg, i);
    InvParts(run[i], cfg);
    InvParts(run[j], cfg);
    DbParts(run[i].db, cfg.m);
    DbParts(run[j].db, cfg.m);
    ImporterLasts(run, events, cfg, i + 1, j, op);
    RevisionsTell(run, events, cfg, i + 1, j);
    ImporterAt(run[i].db, run[i].importers, op);
    ImporterParts(run[i].db, run[i].importers[op]);
    CommittedExpects(run[i], op, cfg);
    var im := run[j].importers[op];
    IngestDecisions.ImportDecides(run[j].db, FirstBatch(im.records), im.expected);
  }

  lemma CommittedExpects(s: State, op: nat, cfg: Settings)
    requires RowsOk(s.db) && op in s.importers && StoreInvariants.Numbered(s.importers[op].records)
    requires op in Next(s, ImportsBatch(op), cfg).importers
    ensures var s2 := Next(s, ImportsBatch(op), cfg); s2.importers[op].expected == Some(s2.db.historyRevision)
  {
    var im := s.importers[op];
    if ImportBatch(s.db, FirstBatch(im.records), im.expected).Err? {
      hide *;
      ImportDroppedNext(s, op, cfg);
    } else {
      if |im.records| > IMPORT_BATCH_SIZE { BatchRevision(s.db, im.records, im.expected); }
      assert |im.records| > IMPORT_BATCH_SIZE ==> Remaining(im, s.db).expected == Some(s.db.historyRevision + 1);
      hide *;
      ImportBatchNext(s, op, cfg);
    }
  }

  // ---------------------------------------------------------------- rows that stand in the way of a batch

  /** The row came by import, or carries an external identifier, or its key has a receipt. */
  ghost predicate IsKeyed(m: Message, receipts: Receipts, imported: set<nat>) {
    m.seqNo in imported || m.externalId.Some? || (m.key.Some? && (m.source, m.key.value) in receipts)
  }

  ghost predicate AllKeyed(db: Db, imported: set<nat>) {
    forall m :: m in db.messages ==> IsKeyed(m, db.receipts, imported)
  }

  lemma IngestKeepsKeyed(db: Db, b: Batch, imported: set<nat>)
    requires RowsOk(db) && |b.messages| == |b.stamps| && AllKeyed(db, imported)
    ensures AllKeyed(Ingest(db, b).db, imported)
  {
    hide *;
    IngestEffect(db, b);
    if Ingest(db, b).reply.Committed? {
      IngestContents.IngestStores(db, b);
      ReceiptsGrown(db, Ingest(db, b).db, b, Ingest(db, b).reply.receipt);
      AddedKeyed(db, b, Ingest(db, b).db, imported);
    }
  }

  lemma ReceiptsGrown(db: Db, after: Db, b: Batch, r: Receipt)
    requires Accounts(db, after, b, r)
    ensures after.receipts == db.receipts[(b.source, b.key) := r]
  {
    hide Appended;
  }

  lemma AddedKeyed(db: Db, b: Batch, after: Db, imported: set<nat>)
    requires |b.messages| == |b.stamps| && AllKeyed(db, imported) && IngestContents.Adds(db, b, after.messages)
    requires (b.source, b.key) in after.receipts && forall k :: k in db.receipts ==> k in after.receipts
    ensures AllKeyed(after, imported)
  {
    var firsts := IngestContents.Firsts(db.messages, b, |b.messages|);
    hide IngestContents.Firsts, IngestContents.TellsAll;
    forall m | m in after.messages ensures IsKeyed(m, after.receipts, imported) {
      var k :| 0 <= k < |after.messages| && after.messages[k] == m;
      if k < |db.messages| {
        assert m == db.messages[k] && IsKeyed(m, db.receipts, imported);
      } else {
        var l := k - |db.messages|;
        assert IngestContents.TellsAll(after.messages[|db.messages| + l], db, b, firsts[l], db.highWater + 1 + l);
        RowKeyed(m, db, b, firsts[l], db.highWater + 1 + l, after.receipts, imported);
      }
    }
  }

  lemma RowKeyed(m: Message, db: Db, b: Batch, i: nat, seqNo: nat, receipts: Receipts, imported: set<nat>)
    requires i < |b.messages| == |b.stamps| && IngestContents.TellsAll(m, db, b, i, seqNo)
    requires (b.source, b.key) in receipts
    ensures IsKeyed(m, receipts, imported)
  {
    hide IngestContents.SaysTheSame, Projections.Shows;
  }

  lemma ImportKeepsKeyed(db: Db, after: Db, imported: set<nat>)
    requires AllKeyed(db, imported) && db.messages <= after.messages && after.receipts == db.receipts
    requires ClashFree(after.messages)
    ensures AllKeyed(after, imported + Arrived(db, after))
  {
    ClashFreeNoDup(after.messages);
    hide ClashFree;
    forall m | m in after.messages ensures IsKeyed(m, after.receipts, imported + Arrived(db, after)) {
      assert m.seqNo in Numbers(after.messages);
      if m.seqNo in Numbers(db.messages) {
        var n :| n in db.messages && n.seqNo == m.seqNo;
        assert n in after.messages;
      }
    }
  }

  lemma NextKeepsImported(s: State, e: Event, cfg: Settings)
    requires e.Ingests? ==> |e.batch.messages| == |e.batch.stamps|
    requires !e.ImportsWhole? && !e.ImportsBatch? && !e.Clears?
    ensures Next(s, e, cfg).imported == s.imported
  {
    hide Ingest, Import, ImportBatch, Publish, Clear, IndexRead, CiteAll, CitePairs, InSpan, Chunks, FirstBatch,
         Arrived, Hi, Remaining;
  }

  lemma OtherKeepsKeyed(s: State, e: Event, cfg: Settings)
    requires e.Publishes? || e.OpensImport? || e.ReadsIndex? || e.Plans? || e.OpensRetrieval? || e.VisitsTree?
    requires AllKeyed(s.db, s.imported)
    ensures AllKeyed(Next(s, e, cfg).db, Next(s, e, cfg).imported)
  {
    NextWrites(s, e, cfg);
    NextKeepsImported(s, e, cfg);
    WrittenCases(s, e, cfg);
    hide *;
    if e.Publishes? && e.op in s.indexers && s.indexers[e.op].proposal.Some?
      && Publish(s.db, s.indexers[e.op].proposal.value).Ok? {
      PublishKeepsRows(s.db, s.indexers[e.op].proposal.value);
    }
    SameKeyed(s.db, Next(s, e, cfg).db, s.imported);
  }

  lemma SameKeyed(db: Db, after: Db, imported: set<nat>)
    requires AllKeyed(db, imported) && after.messages == db.messages && after.receipts == db.receipts
    ensures AllKeyed(after, imported)
  {
    hide IsKeyed;
  }

  lemma StepKeepsKeyed(s: State, e: Event, cfg: Settings)
    requires Inv(s, cfg) && Enabled(s, e, cfg) && AllKeyed(s.db, s.imported)
    ensures AllKeyed(Next(s, e, cfg).db, Next(s, e, cfg).imported)
  {
    assert Enabled(s, e, cfg) && e.Ingests? ==> |e.batch.messages| == |e.batch.stamps|;
    assert e.ImportsWhole? ==> StoreInvariants.Numbered(e.records);
    InvParts(s, cfg);
    DbParts(s.db, cfg.m);
    hide *;
    match e
    case Ingests(b) =>
      IngestKeepsKeyed(s.db, b, s.imported);
      IngestNext(s, b, cfg);
    case ImportsWhole(records) =>
      ImportIs(s.db, records);
      ImportFromInto(s.db, records, None, 0);
      IntoParts(s.db, Import(s.db, records).db);
      ImportKeepsKeyed(s.db, Import(s.db, records).db, s.imported);
      ImportWholeNext(s, records, cfg);
    case ImportsBatch(op) =>
      if op !in s.importers {
        NoImportNext(s, op, cfg);
      } else {
        var batch, expected := FirstBatch(s.importers[op].records), s.importers[op].expected;
        if ImportBatch(s.db, batch, expected).Ok? {
          ImporterAt(s.db, s.importers, op);
          ImporterParts(s.db, s.importers[op]);
          FileSplit(s.importers[op].records);
          ImportBatchInto(s.db, batch, expected);
          IntoParts(s.db, ImportBatch(s.db, batch, expected).value);
          ImportKeepsKeyed(s.db, ImportBatch(s.db, batch, expected).value, s.imported);
          ImportBatchNext(s, op, cfg);
        } else {
          ImportDroppedNext(s, op, cfg);
        }
      }
    case Clears =>
      ClearKeepsOk(s.db, cfg.m);
      ClearNext(s, cfg);
      ClearedKeyed(s.db);
    case _ => OtherKeepsKeyed(s, e, cfg);
  }

  lemma ClearedKeyed(db: Db)
    requires Clear(db).Ok?
    ensures AllKeyed(Clear(db).value, {})
  {}

  lemma {:induction false} RunKeepsKeyed(run: seq<State>, events: seq<Event>, cfg: Settings, i: nat)
    requires Run(run, events, cfg) && i < |run|
    ensures AllKeyed(run[i].db, run[i].imported)
  {
    hide *;
    RunLength(run, events, cfg);
    if i == 0 {
      StartsEmpty(run, events, cfg);
    } else {
      RunKeepsKeyed(run, events, cfg, i - 1);
      RunKeepsInv(run, events, cfg, i - 1);
      StepOf(run, events, cfg, i - 1);
      StepKeepsKeyed(run[i - 1], events[i - 1], cfg);
    }
  }

  lemma StartsEmpty(run: seq<State>, events: seq<Event>, cfg: Settings)
    requires Run(run, events, cfg)
    ensures |run| > 0 && AllKeyed(run[0].db, run[0].imported)
  {
    hide StepAt;
  }

  /** The place of message `k` is taken by a row that came by import. */
  ghost predicate ImportedInTheWay(s: State, b: Batch, k: nat) {
    exists m :: m in s.db.messages && m.seqNo in s.imported && m.source == b.source && m.key == Some(b.key)
                && m.position == Some(k)
  }

  /**
   * In every reachable state a batch of legal size under a new key, with unused identifiers, is committed unless
   * it contradicts a stored row or an imported row stands in its way.
   */
  lemma OnlyImportsBlock(run: seq<State>, events: seq<Event>, cfg: Settings, i: nat, b: Batch)
    requires Run(run, events, cfg) && i < |run| && |b.messages| == |b.stamps|
    requires IngestDecisions.Legal(b) && (b.source, b.key) !in run[i].db.receipts
    requires IngestDecisions.UnusedStamps(run[i].db.messages, b)
    requires !IngestDecisions.Contradictory(run[i].db.messages, b)
    requires forall k: nat :: k < |b.messages| && b.messages[k].externalId.None? ==> !ImportedInTheWay(run[i], b, k)
    ensures Ingest(run[i].db, b).reply.Committed?
  {
    hide *;
    RunKeepsInv(run, events, cfg, i);
    InvParts(run[i], cfg);
    DbParts(run[i].db, cfg.m);
    RunKeepsKeyed(run, events, cfg, i);
    IngestDecisions.UnusedStampsDecide(run[i].db, b);
    NoPlaceTaken(run[i], b);
  }

  lemma NoPlaceTaken(s: State, b: Batch)
    requires AllKeyed(s.db, s.imported) && (b.source, b.key) !in s.db.receipts
    requires forall k: nat :: k < |b.messages| && b.messages[k].externalId.None? ==> !ImportedInTheWay(s, b, k)
    ensures !IngestDecisions.SomePlaceTaken(s.db.messages, b)
  {
    forall m | m in s.db.messages ensures IsKeyed(m, s.db.receipts, s.imported) {}
  }
}
