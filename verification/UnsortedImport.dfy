/**
 * A run in which the leaf spans stop partitioning the messages: another process publishes an index between
 * the two batches of an import whose file does not list its records in ascending order.
 */
module UnsortedImport {
  import opened Wrappers
  import opened Sequences
  import opened Records
  import opened SearchIndex
  import opened Hierarchy
  import opened HierarchyReplan
  import opened Indexing
  import opened IndexRuns
  import opened Transactions
  import opened StoreInvariants
  import opened PublishInvariants
  import opened Protocol
  import opened ProtocolSafety
  import Transfer

  const FILE_SIZE: nat := IMPORT_BATCH_SIZE + 1

  /** The file's records are numbered 2, 3, and so on, and the last one is numbered 1. */
  function RecordAt(i: nat): Message {
    var payload := Payload("user", NoContent, None, None, None);
    Message(i, if i < IMPORT_BATCH_SIZE then i + 2 else 1, "", "s", None, None, Some(i), payload, None,
            PayloadDigest(payload), None, 0)
  }

  function File(): (r: seq<Message>)
    ensures |r| == FILE_SIZE
  {
    seq(FILE_SIZE, i requires 0 <= i < FILE_SIZE => RecordAt(i))
  }

  const DEPLOYED := Settings(2, 6000, 1)

  lemma FileFacts()
    ensures StoreInvariants.Numbered(File()) && ClashFree(File()) && !AscendingFile(File())
    ensures FirstBatch(File()) == File()[..IMPORT_BATCH_SIZE]
            && File()[IMPORT_BATCH_SIZE..] == [RecordAt(IMPORT_BATCH_SIZE)]
  {
    var f := File();
    forall i, j | 0 <= i < j < |f| ensures !Clashes(f[i], f[j]) {
      assert f[i] == RecordAt(i) && f[j] == RecordAt(j);
    }
    assert f[0].seqNo == 2 && f[IMPORT_BATCH_SIZE].seqNo == 1;
  }

  // ---------------------------------------------------------------- the first batch

  /** The store after the first batch: its 500 messages, no tree, a history revision of one. */
  ghost predicate HalfImported(s: State, file: seq<Message>) {
    && |file| == FILE_SIZE && s.db.history == "h" && s.db.messages == Transfer.Renamed("h", file[..IMPORT_BATCH_SIZE])
    && s.db.forest == NoForest && s.db.historyRevision == 1 && s.db.searchRevision == 1 && s.db.indexRevision == 0
    && s.importers == map[0 := Importer(file[IMPORT_BATCH_SIZE..], Some(1), false)]
    && s.indexers == map[] && s.readers == map[]
  }

  function Opened(file: seq<Message>): State {
    Next(Initial("h"), OpensImport(0, file), DEPLOYED)
  }

  lemma OpenedIs(file: seq<Message>)
    ensures Opened(file) == Initial("h").(importers := map[0 := Importer(file, None, AscendingFile(file))])
  {
    hide AscendingFile;
  }

  /** A batch whose rows clash with nothing is committed. */
  lemma BatchCommits(db: Db, batch: seq<Message>, expected: Option<nat>)
    requires ClashFree(db.messages + Transfer.Renamed(db.history, batch)) && batch != []
    requires db.historyRevision == db.searchRevision
    requires if expected.None? then db.messages == [] else expected.value == db.historyRevision
    ensures ImportBatch(db, batch, expected).Ok?
    ensures var after := ImportBatch(db, batch, expected).value;
            && after.messages == db.messages + Transfer.Renamed(db.history, batch)
            && after == db.(messages := after.messages, tables := after.tables,
                            historyRevision := db.historyRevision + 1,
                            searchRevision := db.searchRevision + 1, highWater := after.highWater)
  {
    Transfer.InsertsAll(db.history, db.messages, batch, db.tables);
    hide ClashFree, InsertRecords, MaxSeq;
  }

  lemma FirstBatchCommits(file: seq<Message>)
    requires |file| == FILE_SIZE && ClashFree(file) && !AscendingFile(file)
    ensures HalfImported(Next(Opened(file), ImportsBatch(0), DEPLOYED), file)
  {
    OpenedIs(file);
    Transfer.PrefixClashFree(file, IMPORT_BATCH_SIZE);
    Transfer.RenamedClashFree("h", file[..IMPORT_BATCH_SIZE]);
    hide ClashFree, AscendingFile;
    var s, batch := Opened(file), file[..IMPORT_BATCH_SIZE];
    assert s.importers[0].records == file && FirstBatch(file) == batch;
    assert s.db == NewDb("h") && NewDb("h").messages == [];
    assert [] + Transfer.Renamed("h", batch) == Transfer.Renamed("h", batch);
    BatchCommits(s.db, batch, None);
    hide ImportBatch, Transfer.Renamed, Arrived;
    FirstBatchNext(s, file);
  }

  lemma FirstBatchNext(s: State, file: seq<Message>)
    requires |file| == FILE_SIZE && s.importers == map[0 := Importer(file, None, false)]
    requires ImportBatch(s.db, FirstBatch(file), None).Ok?
    ensures var after := ImportBatch(s.db, FirstBatch(file), None).value;
            Next(s, ImportsBatch(0), DEPLOYED) ==
            s.(db := after, imported := s.imported + Arrived(s.db, after),
               importers := map[0 := Importer(file[IMPORT_BATCH_SIZE..], Some(s.db.historyRevision + 1), false)])
  {
    hide ImportBatch, Arrived, FirstBatch;
    ImportBatchNext(s, 0, DEPLOYED);
  }

  // ---------------------------------------------------------------- the index in between

  /** The store once the index is published: a tree over messages numbered from two on. */
  ghost predicate Indexed(s: State, file: seq<Message>) {
    && |file| == FILE_SIZE && s.db.history == "h" && s.db.messages == Transfer.Renamed("h", file[..IMPORT_BATCH_SIZE])
    && s.db.forest.leaves != [] && s.db.historyRevision == 1 && s.db.searchRevision == 1
    && s.importers == map[0 := Importer(file[IMPORT_BATCH_SIZE..], Some(1), false)]
  }

  lemma ReadNext(s: State, file: seq<Message>)
    requires HalfImported(s, file) && DbOk(s.db, DEPLOYED.m)
    ensures IndexRead(s.db, false).Ok?
    ensures Next(s, ReadsIndex(0, false), DEPLOYED) ==
            s.(indexers := map[0 := Indexer(false, IndexRead(s.db, false).value, None)])
  {
    hide IndexRead, DbOk, HalfImported;
    CaptureIsReady(s.db, false, DEPLOYED);
    assert s.indexers == map[] by { NoIndexers(s, file); }
    ReadIndexNext(s, 0, false, DEPLOYED);
  }

  lemma NoIndexers(s: State, file: seq<Message>)
    requires HalfImported(s, file)
    ensures s.indexers == map[] && s.db.forest == NoForest && s.db.messages != []
  {
    assert |Transfer.Renamed("h", file[..IMPORT_BATCH_SIZE])| == IMPORT_BATCH_SIZE;
  }

  /** The captured rows are there to be indexed, and a limit of one call commits some. */
  lemma SomethingToIndex(db: Db, file: seq<Message>)
    returns (families: Families, count: nat, titled: map<Id, Node>, planned: Backlog)
    requires DbOk(db, DEPLOYED.m) && db.messages != [] && db.forest == NoForest
    ensures IndexRead(db, false).Ok? && count > 0
    ensures Commits(IndexRead(db, false).value.backlog, DEPLOYED, families, count, titled, planned)
    ensures planned.forest.leaves != []
  {
    hide *;
    Deployed();
    CaptureIsReady(db, false, DEPLOYED);
    var b := IndexRead(db, false).value.backlog;
    SomeRow(db, b.rows);
    NoHeight(b);
    families, count, titled, planned := CallExists(b, DEPLOYED);
    CommitKeepsReady(b, DEPLOYED, families, count, titled, planned);
    assert |planned.forest.leaves| > 0;
  }

  lemma SomeRow(db: Db, rows: seq<Row>)
    requires DbOk(db, DEPLOYED.m) && db.messages != [] && db.forest == NoForest
             && Pending(db.messages, From(db, false), db.highWater, rows)
    ensures rows != []
  {
    DbParts(db, DEPLOYED.m);
    hide DbOk, Ascending, RowsStored, SpanEnds, Ordered;
    assert db.committedSeq == 0;
    var m := db.messages[0];
    assert m in db.messages;
    assert HasRowAt(rows, m.seqNo);
  }

  lemma NoHeight(b: Backlog)
    ensures b.forest == NoForest ==> DEPLOYED.limit > Height(|b.forest.leaves| + 1, DEPLOYED.m)
  {}

  /** After planning and publishing, the tree is the plan and everything else is as it was. */
  lemma PublishedNext(s: State, file: seq<Message>, c: Capture, families: Families, count: nat, titled: map<Id, Node>,
                      planned: Backlog)
    requires HalfImported(s, file) && DbOk(s.db, DEPLOYED.m) && IndexRead(s.db, false) == Ok(c) && count > 0
    requires Commits(c.backlog, DEPLOYED, families, count, titled, planned) && planned.forest.leaves != []
    ensures var read := s.(indexers := map[0 := Indexer(false, c, None)]);
            Indexed(Next(Next(read, Plans(0, families, count, titled, planned), DEPLOYED), Publishes(0), DEPLOYED),
                    file)
  {
    var read := s.(indexers := map[0 := Indexer(false, c, None)]);
    PublishKeepsOk(s.db, false, DEPLOYED, families, count, titled, planned);
    var p := ProposalOf(c, DEPLOYED, count, planned);
    hide DbOk, IndexRead, Commits, Chunks, Nonempty;
    PlanNext(read, 0, families, count, titled, planned, DEPLOYED);
    var proposed := Next(read, Plans(0, families, count, titled, planned), DEPLOYED);
    hide Next, ProposalOf;
    assert proposed.indexers[0].proposal == Some(p) && proposed.db == s.db;
    PublishNext(proposed, 0, DEPLOYED);
    ProposalForest(c, count, planned);
    PublishedParts(s.db, p);
  }

  lemma ProposalForest(c: Capture, count: nat, planned: Backlog)
    requires 0 < count <= |Chunks(c.backlog.rows, DEPLOYED.target)| && Nonempty(Chunks(c.backlog.rows, DEPLOYED.target))
    ensures ProposalOf(c, DEPLOYED, count, planned).forest == planned.forest
  {
    hide Chunks, Hi;
  }

  lemma PublishedParts(db: Db, p: Proposal)
    requires Publish(db, p).Ok?
    ensures var after := Publish(db, p).value;
            && after.history == db.history && after.messages == db.messages && after.forest == p.forest
            && after.historyRevision == db.historyRevision && after.searchRevision == db.searchRevision
  {}

  // ---------------------------------------------------------------- the second batch

  /** The last record is committed behind the mark, and lies in no span. */
  lemma LastRecordStrays(s: State, file: seq<Message>)
    requires file == File() && Indexed(s, file) && DbOk(s.db, DEPLOYED.m)
    ensures Strays(s, ImportsBatch(0))
  {
    FileFacts();
    LastBatchCommits(s, file);
    hide *;
    DbParts(s.db, DEPLOYED.m);
    NumberOneIsBehind(s, file);
    StraysWith(s, file[IMPORT_BATCH_SIZE..], RecordAt(IMPORT_BATCH_SIZE));
  }

  lemma LastBatchCommits(s: State, file: seq<Message>)
    requires Indexed(s, file) && ClashFree(file)
    ensures var rest := file[IMPORT_BATCH_SIZE..];
            && s.importers == map[0 := Importer(rest, Some(1), false)] && FirstBatch(rest) == rest
            && ImportBatch(s.db, rest, Some(1)).Ok?
  {
    Transfer.RenamedClashFree("h", file);
    hide ClashFree;
    Joined(file);
    BatchCommits(s.db, file[IMPORT_BATCH_SIZE..], Some(1));
    hide ImportBatch;
  }

  /** A batch that commits although one of its records is not harmless strays. */
  lemma StraysWith(s: State, rest: seq<Message>, last: Message)
    requires s.importers == map[0 := Importer(rest, Some(1), false)] && FirstBatch(rest) == rest
    requires ImportBatch(s.db, rest, Some(1)).Ok? && last in rest && !Harmless(s.db, last)
    ensures Strays(s, ImportsBatch(0))
  {
    hide ImportBatch, Harmless;
    assert !AllHarmless(s.db, rest);
  }

  lemma Joined(file: seq<Message>)
    requires |file| == FILE_SIZE
    ensures Transfer.Renamed("h", file[..IMPORT_BATCH_SIZE]) + Transfer.Renamed("h", file[IMPORT_BATCH_SIZE..]) ==
            Transfer.Renamed("h", file)
  {}

  lemma NumberOneIsBehind(s: State, file: seq<Message>)
    requires file == File() && Indexed(s, file) && Framed(s.db.messages, s.db.forest.leaves, s.db.committedSeq)
    ensures !Harmless(s.db, RecordAt(IMPORT_BATCH_SIZE))
  {
    var db := s.db;
    forall m | m in db.messages ensures m.seqNo >= 2 {
      var k :| 0 <= k < |db.messages| && db.messages[k] == m;
      assert db.messages[k] == RecordAt(k).(history := "h");
    }
    var leaves := db.forest.leaves;
    assert StoredSeq(db.messages, leaves[|leaves|-1].hi);
    forall i | 0 <= i < |leaves| ensures leaves[i].lo >= 2 {
      assert StoredSeq(db.messages, leaves[i].lo);
    }
  }

  // ---------------------------------------------------------------- the run

  ghost predicate Leads(a: State, e: Event, b: State) {
    Enabled(a, e, DEPLOYED) && b == Next(a, e, DEPLOYED)
  }

  lemma RunStarts()
    ensures Run([Initial("h")], [], DEPLOYED)
  {
    assert [Initial("h")][0] == Initial("h");
  }

  /** One more step makes a longer run. */
  lemma RunGoesOn(run: seq<State>, events: seq<Event>, e: Event, b: State)
    requires Run(run, events, DEPLOYED) && Leads(run[|events|], e, b)
    ensures Run(run + [b], events + [e], DEPLOYED)
  {
    var r, es := run + [b], events + [e];
    forall i | 0 <= i < |es| ensures StepAt(r, es, DEPLOYED, i) {
      if i < |events| {
        assert StepAt(run, events, DEPLOYED, i);
        SameStep(run, events, r, es, i);
      } else {
        LastStep(r, es, i);
      }
    }
    hide StepAt, Leads, Initial;
  }

  lemma SameStep(run: seq<State>, events: seq<Event>, r: seq<State>, es: seq<Event>, i: nat)
    requires i < |events| && |run| == |events| + 1 && i < |es| && |r| == |es| + 1 && StepAt(run, events, DEPLOYED, i)
    requires r[i] == run[i] && r[i + 1] == run[i + 1] && es[i] == events[i]
    ensures StepAt(r, es, DEPLOYED, i)
  {
    hide Next, Enabled;
  }

  lemma LastStep(r: seq<State>, es: seq<Event>, i: nat)
    requires i < |es| && |r| == |es| + 1 && Leads(r[i], es[i], r[i + 1])
    ensures StepAt(r, es, DEPLOYED, i)
  {
    hide Next, Enabled;
  }

  lemma Stepped(a: State, e: Event) returns (b: State)
    requires Inv(a, DEPLOYED) && Enabled(a, e, DEPLOYED)
    ensures Leads(a, e, b) && b == Next(a, e, DEPLOYED) && Inv(b, DEPLOYED) && DbOk(b.db, DEPLOYED.m)
  {
    assert e.Ingests? ==> |e.batch.messages| == |e.batch.stamps|;
    hide Next, Enabled, Inv, DbOk;
    b := Next(a, e, DEPLOYED);
    StepKeepsInv(a, e, DEPLOYED);
    InvParts(b, DEPLOYED);
  }

  /**
   * Six steps from a fresh store to a broken partition: open the import, commit its first 500 records,
   * read, plan and publish an index in another process, commit the 501st.
   */
  lemma UnsortedImportBreaksPartition() returns (run: seq<State>, events: seq<Event>)
    ensures Run(run, events, DEPLOYED) && |events| == 6 && events[0] == OpensImport(0, File())
    ensures StoreInvariants.Numbered(File()) && ClashFree(File())
    ensures Strays(run[5], events[5])
    ensures var db := run[6].db; !Partitioned(db.messages, db.forest.leaves, db.committedSeq)
  {
    hide *;
    FileFacts();
    Deployed();
    InitialInv("h", DEPLOYED);
    RunStarts();
    var s0 := Initial("h");
    OpensEnabled(s0);
    var s1 := Stepped(s0, OpensImport(0, File()));
    RunGoesOn([s0], [], OpensImport(0, File()), s1);
    FirstOpened(s1);
    AlwaysEnabled(s1);
    var s2 := Stepped(s1, ImportsBatch(0));
    FirstBatchCommits(File());
    run, events := [s0] + [s1], [] + [OpensImport(0, File())];
    RunGoesOn(run, events, ImportsBatch(0), s2);
    run, events := run + [s2], events + [ImportsBatch(0)];
    var s5;
    run, events, s5 := IndexedBetween(run, events, s2, File());
    AlwaysEnabled(s5);
    var s6 := Stepped(s5, ImportsBatch(0));
    RunGoesOn(run, events, ImportsBatch(0), s6);
    run, events := run + [s6], events + [ImportsBatch(0)];
    LastRecordStrays(s5, File());
    StepUnbroken(s5, ImportsBatch(0), DEPLOYED);
    Kinds(s5, ImportsBatch(0));
    PartitionedIs(s6.db);
  }

  /** Three more steps: another process reads, plans and publishes the index. */
  lemma IndexedBetween(run: seq<State>, events: seq<Event>, s2: State, file: seq<Message>)
    returns (run2: seq<State>, events2: seq<Event>, s5: State)
    requires Run(run, events, DEPLOYED) && |events| == 2 && |run| == 3 && run[2] == s2
    requires Inv(s2, DEPLOYED) && DbOk(s2.db, DEPLOYED.m) && HalfImported(s2, file)
    ensures Run(run2, events2, DEPLOYED) && |events2| == 5 && |run2| == 6 && run2[5] == s5 && events2[0] == events[0]
    ensures Inv(s5, DEPLOYED) && DbOk(s5.db, DEPLOYED.m) && Indexed(s5, file)
  {
    hide *;
    NoIndexers(s2, file);
    AlwaysEnabled(s2);
    var s3 := Stepped(s2, ReadsIndex(0, false));
    ReadNext(s2, file);
    RunGoesOn(run, events, ReadsIndex(0, false), s3);
    run2, events2 := run + [s3], events + [ReadsIndex(0, false)];
    var families, count, titled, planned := SomethingToIndex(s2.db, file);
    var c := IndexRead(s2.db, false).value;
    PlansEnabled(s3, c, families, count, titled, planned);
    var s4 := Stepped(s3, Plans(0, families, count, titled, planned));
    RunGoesOn(run2, events2, Plans(0, families, count, titled, planned), s4);
    run2, events2 := run2 + [s4], events2 + [Plans(0, families, count, titled, planned)];
    AlwaysEnabled(s4);
    s5 := Stepped(s4, Publishes(0));
    RunGoesOn(run2, events2, Publishes(0), s5);
    run2, events2 := run2 + [s5], events2 + [Publishes(0)];
    PublishedNext(s2, file, c, families, count, titled, planned);
  }

  lemma Deployed()
    ensures 2 <= DEPLOYED.m
  {}

  lemma FirstOpened(s: State)
    requires s == Next(Initial("h"), OpensImport(0, File()), DEPLOYED)
    ensures s == Opened(File())
  {
    hide Next, File;
  }

  lemma OpensEnabled(s: State)
    requires StoreInvariants.Numbered(File())
    ensures Enabled(s, OpensImport(0, File()), DEPLOYED)
  {
    hide StoreInvariants.Numbered, File;
  }

  lemma AlwaysEnabled(s: State)
    ensures Enabled(s, ImportsBatch(0), DEPLOYED) && Enabled(s, ReadsIndex(0, false), DEPLOYED)
            && Enabled(s, Publishes(0), DEPLOYED)
  {}

  lemma PlansEnabled(s: State, c: Capture, families: Families, count: nat, titled: map<Id, Node>, planned: Backlog)
    requires s.indexers == map[0 := Indexer(false, c, None)]
    requires Commits(c.backlog, DEPLOYED, families, count, titled, planned)
    ensures Enabled(s, Plans(0, families, count, titled, planned), DEPLOYED)
  {
    hide Commits;
  }
}
