/**
 * The store as a step protocol: every locked section is one atomic step, and between steps an index
 * proposal, a retrieval or an import in another process may go stale.
 */
module Protocol {
  import opened Wrappers
  import opened Sequences
  import opened Records
  import opened SearchIndex
  import opened Hierarchy
  import opened HierarchyReplan
  import opened Indexing
  import opened IndexRuns
  import opened Transactions
  import opened StoreInvariants
  import opened PublishInvariants
  import Relevance
  import opened Retrieval

  // ---------------------------------------------------------------- state and events

  datatype Indexer = Indexer(rebuild: bool, capture: Capture, proposal: Option<Proposal>)

  datatype Snapshot = Snapshot(historyRevision: nat, indexRevision: nat, generation: nat, maxSeq: nat)

  datatype Reader = Reader(snapshot: Snapshot, hits: seq<Candidate>, pairs: seq<Link>, tree: seq<Candidate>,
                           chunks: seq<Id>)

  /**
   * An import between its batches: what is still to be written, and the revision it expects.  `sorted`
   * is bookkeeping: whether its file lists the records in ascending order.
   */
  datatype Importer = Importer(records: seq<Message>, expected: Option<nat>, sorted: bool)

  /** `imported` is bookkeeping: the sequence numbers that imports brought in since the last clear. */
  datatype State = State(db: Db, indexers: map<nat, Indexer>, readers: map<nat, Reader>, importers: map<nat, Importer>,
                         imported: set<nat>)

  /** How a request cuts excerpts. */
  datatype View = View(lex: Relevance.Lexicon, terms: seq<string>, window: nat)

  datatype Event =
    | Ingests(batch: Batch)
    | ImportsWhole(records: seq<Message>)
    | OpensImport(op: nat, records: seq<Message>)
    | ImportsBatch(op: nat)
    | Clears
    | ReadsIndex(op: nat, rebuild: bool)
    | Plans(op: nat, families: Families, count: nat, titled: map<Id, Node>, planned: Backlog)
    | Publishes(op: nat)
    | OpensRetrieval(op: nat, view: View, hits: seq<CandidateKey>, pairs: seq<(CandidateKey, CandidateKey)>)
    | VisitsTree(op: nat, view: View, leaf: nat, parts: seq<CandidateKey>)

  // ---------------------------------------------------------------- citing stored text

  /** The excerpt of one text part of a stored message. */
  function Cite(messages: seq<Message>, view: View, k: CandidateKey): Option<Candidate> {
    var m := Records.Find(messages, k.messageId);
    if m.None? then None
    else
      var text := TextAt(m.value.payload, k.pointer);
      if text.None? then None
      else Some(Candidate(k.messageId, m.value.seqNo, k.pointer,
                          Relevance.Excerpt(view.lex, text.value, view.terms, view.window),
                          if m.value.text.Some? then m.value.text.value else ""))
  }

  /** The excerpts of the nominated parts that are still stored. */
  function CiteAll(messages: seq<Message>, view: View, keys: seq<CandidateKey>): seq<Candidate> {
    if keys == [] then []
    else
      var c := Cite(messages, view, keys[|keys|-1]);
      CiteAll(messages, view, keys[..|keys|-1]) + (if c.Some? then [c.value] else [])
  }

  /** Those of them that lie in one span of sequence numbers. */
  function InSpan(cs: seq<Candidate>, from: nat, upto: nat): seq<Candidate> {
    if cs == [] then []
    else InSpan(cs[..|cs|-1], from, upto) + (if from <= cs[|cs|-1].seqNo <= upto then [cs[|cs|-1]] else [])
  }

  function CitePairs(messages: seq<Message>, view: View, pairs: seq<(CandidateKey, CandidateKey)>,
                     upto: nat): seq<Link> {
    if pairs == [] then []
    else
      var a, b := Cite(messages, view, pairs[|pairs|-1].0), Cite(messages, view, pairs[|pairs|-1].1);
      CitePairs(messages, view, pairs[..|pairs|-1], upto) +
      (if a.Some? && b.Some? && a.value.seqNo < b.value.seqNo <= upto then [Link(a.value, b.value)] else [])
  }

  /** A candidate names a stored message and quotes a contiguous piece of one of its texts. */
  ghost predicate Cited(messages: seq<Message>, upto: nat, c: Candidate) {
    && c.seqNo <= upto
    && exists m :: m in messages && Quotes(m, c)
  }

  ghost predicate Quotes(m: Message, c: Candidate) {
    && m.id == c.messageId && m.seqNo == c.seqNo && TextAt(m.payload, c.pointer).Some?
    && Relevance.PieceOf(c.excerpt, TextAt(m.payload, c.pointer).value)
  }

  ghost predicate AllCited(messages: seq<Message>, upto: nat, cs: seq<Candidate>) {
    forall c :: c in cs ==> Cited(messages, upto, c)
  }

  ghost predicate PairsCited(messages: seq<Message>, upto: nat, pairs: seq<Link>) {
    forall p :: p in pairs ==> Cited(messages, upto, p.linked)
  }

  lemma CiteIsCited(messages: seq<Message>, view: View, k: CandidateKey, upto: nat)
    ensures var c := Cite(messages, view, k); c.Some? && c.value.seqNo <= upto ==> Cited(messages, upto, c.value)
  {
    var c := Cite(messages, view, k);
    Records.FindFacts(messages, k.messageId);
    if c.Some? && c.value.seqNo <= upto {
      var m := Records.Find(messages, k.messageId).value;
      var text := TextAt(m.payload, k.pointer).value;
      hide Relevance.Excerpt, TextAt, Relevance.PieceOf;
      Relevance.ExcerptIsPiece(view.lex, text, view.terms, view.window);
      assert Quotes(m, c.value);
    }
  }

  /** Whatever is cited while every message is numbered up to a bound lies within that bound. */
  lemma {:induction false} CiteAllCited(messages: seq<Message>, view: View, keys: seq<CandidateKey>, upto: nat)
    requires StoreInvariants.SeqsWithin(messages, upto)
    ensures AllCited(messages, upto, CiteAll(messages, view, keys))
  {
    hide Cited;
    if keys != [] {
      CiteAllCited(messages, view, keys[..|keys|-1], upto);
      CiteIsStored(messages, view, keys[|keys|-1]);
      CiteIsCited(messages, view, keys[|keys|-1], upto);
    }
  }

  lemma CiteIsStored(messages: seq<Message>, view: View, k: CandidateKey)
    ensures var c := Cite(messages, view, k); c.Some? ==> exists m :: m in messages && m.seqNo == c.value.seqNo
  {
    Records.FindFacts(messages, k.messageId);
    hide Relevance.Excerpt;
  }

  lemma {:induction false} InSpanCited(messages: seq<Message>, cs: seq<Candidate>, from: nat, upto: nat, bound: nat)
    requires AllCited(messages, bound, cs)
    ensures AllCited(messages, upto, InSpan(cs, from, upto))
  {
    hide Quotes;
    if cs != [] {
      InSpanCited(messages, cs[..|cs|-1], from, upto, bound);
      assert Cited(messages, bound, cs[|cs|-1]);
    }
  }

  lemma {:induction false} CitePairsCited(messages: seq<Message>, view: View, pairs: seq<(CandidateKey, CandidateKey)>,
                                          upto: nat)
    ensures PairsCited(messages, upto, CitePairs(messages, view, pairs, upto))
  {
    hide Cite, Cited;
    if pairs != [] {
      CitePairsCited(messages, view, pairs[..|pairs|-1], upto);
      CiteIsCited(messages, view, pairs[|pairs|-1].1, upto);
    }
  }

  // ---------------------------------------------------------------- steps

  function Numbers(records: seq<Message>): set<nat> {
    set r | r in records :: r.seqNo
  }

  function FirstBatch(records: seq<Message>): seq<Message> {
    if |records| <= IMPORT_BATCH_SIZE then records else records[..IMPORT_BATCH_SIZE]
  }

  /** The sequence numbers a step stored. */
  function Arrived(db: Db, db2: Db): set<nat> {
    Numbers(db2.messages) - Numbers(db.messages)
  }

  predicate AscendingFile(records: seq<Message>) {
    forall i, j :: 0 <= i < j < |records| ==> records[i].seqNo < records[j].seqNo
  }

  /** An import after one of several batches was committed to `db`. */
  function Remaining(im: Importer, db: Db): Importer
    requires |im.records| > IMPORT_BATCH_SIZE
  {
    Importer(im.records[IMPORT_BATCH_SIZE..], Some(db.historyRevision + 1), im.sorted)
  }

  function SnapshotOf(db: Db): Snapshot {
    Snapshot(db.historyRevision, db.indexRevision, db.generation, db.highWater)
  }

  /** The next state; a step that is refused or not enabled leaves everything as it is. */
  function Next(s: State, e: Event, cfg: Settings): State
    requires e.Ingests? ==> |e.batch.messages| == |e.batch.stamps|
  {
    match e
    case Ingests(b) => s.(db := Ingest(s.db, b).db)
    case ImportsWhole(records) => 
      var db2 := Import(s.db, records).db;
      s.(db := db2, imported := s.imported + Arrived(s.db, db2))
    case OpensImport(op, records) => s.(importers := s.importers[op := Importer(records, None, AscendingFile(records))])
    case ImportsBatch(op) =>
      if op !in s.importers then s
      else
        var im := s.importers[op];
        var r := ImportBatch(s.db, FirstBatch(im.records), im.expected);
        if r.Err? then s.(importers := s.importers - {op})
        else
          s.(db := r.value, imported := s.imported + Arrived(s.db, r.value),
             importers := if |im.records| <= IMPORT_BATCH_SIZE then s.importers - {op}
                          else s.importers[op := Remaining(im, s.db)])
    case Clears =>
      var r := Clear(s.db);
      if r.Err? then s else s.(db := r.value, imported := {})
    case ReadsIndex(op, rebuild) =>
      var r := IndexRead(s.db, rebuild);
      if r.Err? then s else s.(indexers := s.indexers[op := Indexer(rebuild, r.value, None)])
    case Plans(op, families, count, titled, planned) =>
      if op !in s.indexers then s
      else
        var c := s.indexers[op].capture;
        if 0 < count <= |Chunks(c.backlog.rows, cfg.target)| && Chunks(c.backlog.rows, cfg.target)[count-1] != [] then
          var p := Proposal(c.historyRevision, c.indexRevision, c.generation, planned.forest,
                            Hi(Chunks(c.backlog.rows, cfg.target)[count-1]), planned.nextId);
          s.(indexers := s.indexers[op := s.indexers[op].(proposal := Some(p))])
        else s
    case Publishes(op) =>
      if op !in s.indexers || s.indexers[op].proposal.None? then s
      else
        var r := Publish(s.db, s.indexers[op].proposal.value);
        s.(db := if r.Ok? then r.value else s.db, indexers := s.indexers - {op})
    case OpensRetrieval(op, view, hits, pairs) =>
      var snap := SnapshotOf(s.db);
      s.(readers := s.readers[op := Reader(snap, CiteAll(s.db.messages, view, hits),
                                           CitePairs(s.db.messages, view, pairs, snap.maxSeq), [], [])])
    case VisitsTree(op, view, leaf, parts) =>
      if op !in s.readers then s
      else
        var r := s.readers[op];
        if s.db.indexRevision != r.snapshot.indexRevision || s.db.generation != r.snapshot.generation then
          s.(readers := s.readers[op := r.(tree := [], chunks := [])])
        else if leaf >= |s.db.forest.leaves| then s
        else
          var n := s.db.forest.leaves[leaf];
          var last := if n.hi <= r.snapshot.maxSeq then n.hi else r.snapshot.maxSeq;
          s.(readers := s.readers[op := r.(tree := r.tree + InSpan(CiteAll(s.db.messages, view, parts), n.lo, last),
                                           chunks := r.chunks + [n.id])])
  }

  /**
   * What the callers of these operations are held to: drawn identifiers, records numbered from one, real index calls.
   */
  ghost predicate Enabled(s: State, e: Event, cfg: Settings) {
    match e
    case Ingests(b) => |b.messages| == |b.stamps|
    case ImportsWhole(records) => StoreInvariants.Numbered(records)
    case OpensImport(op, records) => StoreInvariants.Numbered(records)
    case Plans(op, families, count, titled, planned) =>
      2 <= cfg.m && (op in s.indexers ==>
                       Commits(s.indexers[op].capture.backlog, cfg, families, count, titled, planned))
    case _ => true
  }

  /** What the retrieval hands to its caller, decided under the lock at the end. */
  function Emission(db: Db, r: Reader, limit: nat, most: nat): Result<seq<Evidence>, Error> {
    if db.generation != r.snapshot.generation then Err(VersionConflict)
    else
      var tree := if r.chunks == [] || db.indexRevision != r.snapshot.indexRevision then [] else r.tree;
      Ok(Assembled(r.hits, r.pairs, tree, limit, most))
  }

  // ---------------------------------------------------------------- every step advances

  /** Revisions never fall, any change raises one, and within a generation messages are only added. */
  ghost predicate Advances(db: Db, db2: Db) {
    && db.historyRevision <= db2.historyRevision && db.indexRevision <= db2.indexRevision
    && db.generation <= db2.generation && db.highWater <= db2.highWater
    && (db2 == db || db.historyRevision < db2.historyRevision || db.indexRevision < db2.indexRevision)
    && (db2.generation == db.generation ==> db.messages <= db2.messages)
  }

  lemma AdvancesTwice(a: Db, b: Db, c: Db)
    requires Advances(a, b) && Advances(b, c)
    ensures Advances(a, c)
  {}

  lemma WroteAdvances(db: Db, after: Db)
    requires Wrote(db, after)
    ensures Advances(db, after)
  {}

  lemma IngestAdvances(db: Db, b: Batch)
    requires RowsOk(db) && |b.messages| == |b.stamps|
    ensures Advances(db, Ingest(db, b).db)
  {
    IngestEffect(db, b);
    hide Ingest, RowsOk;
    if Ingest(db, b).reply.Committed? { WroteAdvances(db, Ingest(db, b).db); }
  }

  lemma ImportBatchAdvances(db: Db, records: seq<Message>, expected: Option<nat>)
    requires RowsOk(db) && StoreInvariants.Numbered(records) && ImportBatch(db, records, expected).Ok?
    ensures Advances(db, ImportBatch(db, records, expected).value)
    ensures RowsOk(ImportBatch(db, records, expected).value)
  {
    ImportBatchEffect(db, records, expected);
    hide ImportBatch, RowsOk;
    if records != [] { WroteAdvances(db, ImportBatch(db, records, expected).value); }
  }

  lemma {:induction false} ImportFromAdvances(db: Db, records: seq<Message>, expected: Option<nat>, count: nat)
    requires RowsOk(db) && StoreInvariants.Numbered(records)
    ensures Advances(db, ImportFrom(db, records, expected, count).db)
    decreases |records|
  {
    hide RowsOk, ImportBatch, Advances;
    var batch := if |records| <= IMPORT_BATCH_SIZE then records else records[..IMPORT_BATCH_SIZE];
    var step := ImportBatch(db, batch, expected);
    if step.Ok? {
      ImportBatchAdvances(db, batch, expected);
      if |records| > IMPORT_BATCH_SIZE {
        var rest := records[IMPORT_BATCH_SIZE..];
        ImportFromAdvances(step.value, rest, Some(db.historyRevision + 1), count + |batch|);
        AdvancesTwice(db, step.value, ImportFrom(step.value, rest, Some(db.historyRevision + 1), count + |batch|).db);
      }
    } else {
      StaysPut(db);
    }
  }

  lemma StaysPut(db: Db)
    ensures Advances(db, db)
  {}

  lemma ClearAdvances(db: Db)
    requires Clear(db).Ok?
    ensures Advances(db, Clear(db).value)
  {}

  lemma PublishAdvances(db: Db, p: Proposal)
    requires Publish(db, p).Ok?
    ensures Advances(db, Publish(db, p).value)
  {}

  // ---------------------------------------------------------------- the invariant

  ghost predicate Current(db: Db, c: Capture) {
    c.historyRevision == db.historyRevision && c.indexRevision == db.indexRevision && c.generation == db.generation
  }

  /** A capture is the past, and while its revisions are the current ones it is exactly the present. */
  ghost predicate CaptureOk(db: Db, ix: Indexer) {
    && ix.capture.historyRevision <= db.historyRevision && ix.capture.indexRevision <= db.indexRevision
    && ix.capture.generation <= db.generation
    && (Current(db, ix.capture) ==> IndexRead(db, ix.rebuild) == Ok(ix.capture))
  }

  ghost predicate IndexerOk(db: Db, cfg: Settings, ix: Indexer) {
    CaptureOk(db, ix) && (ix.proposal.Some? ==> Planned(ix.capture, cfg, ix.proposal.value))
  }

  /** While its generation lasts, everything a retrieval holds is still stored. */
  ghost predicate ReaderOk(db: Db, r: Reader) {
    && r.snapshot.generation <= db.generation
    && (r.snapshot.generation == db.generation ==>
          && AllCited(db.messages, r.snapshot.maxSeq, r.hits) && PairsCited(db.messages, r.snapshot.maxSeq, r.pairs)
          && AllCited(db.messages, r.snapshot.maxSeq, r.tree))
  }

  ghost predicate AllBefore(messages: seq<Message>, records: seq<Message>) {
    forall m, r :: m in messages && r in records ==> m.seqNo < r.seqNo
  }

  ghost predicate ImporterOk(db: Db, im: Importer) {
    && StoreInvariants.Numbered(im.records) && (im.sorted ==> AscendingFile(im.records))
    && (im.expected.Some? ==>
          && im.expected.value <= db.historyRevision
          && (im.sorted && im.expected.value == db.historyRevision ==> AllBefore(db.messages, im.records)))
  }

  ghost predicate Receipted(receipts: Receipts, q: nat) {
    exists k :: k in receipts && InReceipt(receipts[k], q)
  }

  ghost predicate Origin(db: Db, imported: set<nat>, q: nat) {
    q in imported <==> !Receipted(db.receipts, q)
  }

  /** Every stored message either was imported or lies in a receipt's range, never both. */
  ghost predicate Accounted(db: Db, imported: set<nat>) {
    && (forall q :: q in imported ==> StoredSeq(db.messages, q))
    && (forall m :: m in db.messages ==> Origin(db, imported, m.seqNo))
  }

  ghost predicate IndexersOk(db: Db, cfg: Settings, indexers: map<nat, Indexer>) {
    forall op :: op in indexers ==> IndexerOk(db, cfg, indexers[op])
  }

  ghost predicate ReadersOk(db: Db, readers: map<nat, Reader>) {
    forall op :: op in readers ==> ReaderOk(db, readers[op])
  }

  ghost predicate ImportersOk(db: Db, importers: map<nat, Importer>) {
    forall op :: op in importers ==> ImporterOk(db, importers[op])
  }

  ghost predicate Inv(s: State, cfg: Settings) {
    && DbOk(s.db, cfg.m) && 2 <= cfg.m && IndexersOk(s.db, cfg, s.indexers) && ReadersOk(s.db, s.readers)
    && ImportersOk(s.db, s.importers) && Accounted(s.db, s.imported)
  }

  function Initial(history: string): State {
    State(NewDb(history), map[], map[], map[], {})
  }

  lemma InitialInv(history: string, cfg: Settings)
    requires 2 <= cfg.m
    ensures Inv(Initial(history), cfg)
  {
    NewDbOk(history, cfg.m);
    hide DbOk;
  }

  // ---------------------------------------------------------------- what advancing does to the others

  lemma CaptureStays(db: Db, db2: Db, ix: Indexer)
    requires Advances(db, db2) && CaptureOk(db, ix)
    ensures CaptureOk(db2, ix)
  {
    hide IndexRead;
  }

  lemma CitedMore(messages: seq<Message>, more: seq<Message>, upto: nat, c: Candidate)
    requires messages <= more && Cited(messages, upto, c)
    ensures Cited(more, upto, c)
  {
    hide Quotes;
    var m :| m in messages && Quotes(m, c);
    assert m in more;
  }

  lemma ReaderStays(db: Db, db2: Db, r: Reader)
    requires Advances(db, db2) && ReaderOk(db, r)
    ensures ReaderOk(db2, r)
  {
    hide Cited;
    if r.snapshot.generation == db2.generation {
      var upto := r.snapshot.maxSeq;
      forall c | c in r.hits || c in r.tree ensures Cited(db2.messages, upto, c) {
        CitedMore(db.messages, db2.messages, upto, c);
      }
      forall p | p in r.pairs ensures Cited(db2.messages, upto, p.linked) {
        CitedMore(db.messages, db2.messages, upto, p.linked);
      }
    }
  }

  /** An importer's expectation survives only steps that do not touch the history. */
  lemma ImporterStays(db: Db, db2: Db, im: Importer)
    requires Advances(db, db2) && ImporterOk(db, im)
    requires db2.historyRevision == db.historyRevision ==> db2.messages == db.messages
    ensures ImporterOk(db2, im)
  {
    hide AllBefore, StoreInvariants.Numbered, AscendingFile;
  }

  lemma OthersStay(s: State, db2: Db, cfg: Settings)
    requires Inv(s, cfg) && Advances(s.db, db2)
    requires db2.historyRevision == s.db.historyRevision ==> db2.messages == s.db.messages
    ensures IndexersOk(db2, cfg, s.indexers) && ReadersOk(db2, s.readers) && ImportersOk(db2, s.importers)
  {
    hide DbOk, CaptureOk, Planned, ReaderOk, ImporterOk, Advances;
    forall op | op in s.indexers ensures IndexerOk(db2, cfg, s.indexers[op]) {
      CaptureStays(s.db, db2, s.indexers[op]);
    }
    forall op | op in s.readers ensures ReaderOk(db2, s.readers[op]) {
      ReaderStays(s.db, db2, s.readers[op]);
    }
    forall op | op in s.importers ensures ImporterOk(db2, s.importers[op]) {
      ImporterStays(s.db, db2, s.importers[op]);
    }
  }
}
