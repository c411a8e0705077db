/**
 * The store's transactions as functions from state to state
 * (packages/python/src/cci/ingest.py, import_history.py, clear.py and the publish step of index.py).
 * Each either commits a whole new state or leaves the old one.
 */
module Transactions {
  import opened Wrappers
  import opened Sequences
  import opened Records
  import opened SearchIndex
  import opened SearchMaintenance
  import opened Hierarchy
  import opened HierarchyReplan
  import opened Indexing
  import opened IndexRuns

  const MAX_MESSAGES_PER_BATCH: nat := 1000
  const IMPORT_BATCH_SIZE: nat := 500

  datatype Receipt = Receipt(digest: Digest, first: Option<nat>, last: Option<nat>, skipped: nat)

  /** Receipts by source and idempotency key. */
  type Receipts = map<(string, string), Receipt>

  datatype Db = Db(history: string, messages: seq<Message>, receipts: Receipts, tables: Tables, forest: Forest,
                   historyRevision: nat, searchRevision: nat, indexRevision: nat, generation: nat,
                   committedSeq: nat, highWater: nat, nextNode: Id)

  datatype Error = InvalidInput | StoreCorrupt | IdempotencyConflict | MessageConflict | ConstraintFailed
                 | StoreNotEmpty | VersionConflict

  /** What a stored message is given beside its content: a drawn identifier and the clock's time. */
  datatype Stamp = Stamp(id: MessageId, created: Moment)

  /** One ingest call, with a stamp for each of its messages. */
  datatype Batch = Batch(source: string, key: string, messages: seq<InputMessage>, session: Option<string>,
                         stamps: seq<Stamp>)

  datatype Reply = Replayed(receipt: Receipt) | Committed(receipt: Receipt) | Refused(error: Error)

  datatype Ingested = Ingested(db: Db, reply: Reply)

  // ---------------------------------------------------------------- inserting rows

  /** The table's unique constraints: identifier, sequence number, and the two identity modes; nulls never clash. */
  predicate Clashes(m: Message, n: Message) {
    || m.id == n.id
    || m.seqNo == n.seqNo
    || (m.source == n.source && m.externalId.Some? && m.externalId == n.externalId)
    || (m.source == n.source && m.externalId.None? && n.externalId.None? &&
        m.key.Some? && m.key == n.key && m.position.Some? && m.position == n.position)
  }

  predicate Violates(messages: seq<Message>, m: Message) {
    exists n :: n in messages && Clashes(n, m)
  }

  function FindExternal(messages: seq<Message>, source: string, externalId: string): Option<Message> {
    if messages == [] then None
    else
      var last := messages[|messages|-1];
      if last.source == source && last.externalId == Some(externalId) then Some(last)
      else FindExternal(messages[..|messages|-1], source, externalId)
  }

  /** The rows and search tables while a transaction inserts. */
  datatype Contents = Contents(messages: seq<Message>, tables: Tables)

  function Insert(d: Contents, m: Message): Option<Contents> {
    if Violates(d.messages, m) then None else Some(Contents(d.messages + [m], AddRow(d.tables, m)))
  }

  // ---------------------------------------------------------------- ingest

  function RowFor(history: string, b: Batch, i: nat, seqNo: nat): Message
    requires i < |b.messages| == |b.stamps|
  {
    var m := b.messages[i];
    Message(b.stamps[i].id, seqNo, history, b.source, m.externalId,
            if m.externalId.None? then Some(b.key) else None,
            if m.externalId.None? then Some(i) else None,
            PayloadOf(m), Projection(m.content), PayloadDigest(PayloadOf(m)), b.session, b.stamps[i].created)
  }

  predicate AlreadyStored(messages: seq<Message>, source: string, m: InputMessage) {
    m.externalId.Some? && FindExternal(messages, source, m.externalId.value).Some?
  }

  /** An external identifier is stored with a different payload. */
  predicate Conflicts(messages: seq<Message>, source: string, m: InputMessage) {
    AlreadyStored(messages, source, m) &&
    FindExternal(messages, source, m.externalId.value).value.payload != PayloadOf(m)
  }

  datatype Progress = Progress(draft: Contents, nextSeq: nat, skipped: nat)

  /** The insertion loop from message `i` on. */
  function InsertFrom(history: string, b: Batch, i: nat, p: Progress): Option<Progress>
    requires i <= |b.messages| == |b.stamps|
    decreases |b.messages| - i
  {
    if i == |b.messages| then Some(p)
    else if AlreadyStored(p.draft.messages, b.source, b.messages[i]) then
      InsertFrom(history, b, i + 1, p.(skipped := p.skipped + 1))
    else
      var d := Insert(p.draft, RowFor(history, b, i, p.nextSeq));
      if d.None? then None else InsertFrom(history, b, i + 1, Progress(d.value, p.nextSeq + 1, p.skipped))
  }

  function Ingest(db: Db, b: Batch): Ingested
    requires |b.messages| == |b.stamps|
  {
    if b.messages == [] || |b.messages| > MAX_MESSAGES_PER_BATCH then Ingested(db, Refused(InvalidInput))
    else if db.historyRevision != db.searchRevision then Ingested(db, Refused(StoreCorrupt))
    else
      var digest := RequestDigest(b.messages, b.source, b.session);
      if (b.source, b.key) in db.receipts then
        var receipt := db.receipts[(b.source, b.key)];
        Ingested(db, if receipt.digest == digest then Replayed(receipt) else Refused(IdempotencyConflict))
      else if exists i :: 0 <= i < |b.messages| && Conflicts(db.messages, b.source, b.messages[i]) then
        Ingested(db, Refused(MessageConflict))
      else
        var done := InsertFrom(db.history, b, 0, Progress(Contents(db.messages, db.tables), db.highWater + 1, 0));
        if done.None? then Ingested(db, Refused(ConstraintFailed))
        else
          var p := done.value;
          var inserted := p.nextSeq > db.highWater + 1;
          var receipt := Receipt(digest, if inserted then Some(db.highWater + 1) else None,
                                 if inserted then Some(p.nextSeq - 1) else None, p.skipped);
          Ingested(db.(messages := p.draft.messages, tables := p.draft.tables,
                       receipts := db.receipts[(b.source, b.key) := receipt],
                       historyRevision := db.historyRevision + 1, searchRevision := db.searchRevision + 1,
                       highWater := if inserted then p.nextSeq - 1 else db.highWater),
                   Committed(receipt))
  }

  // ---------------------------------------------------------------- import

  /** The records of one batch, in file order, under the destination's history. */
  function InsertRecords(history: string, records: seq<Message>, d: Contents): Option<Contents> {
    if records == [] then Some(d)
    else
      var next := Insert(d, records[0].(history := history));
      if next.None? then None else InsertRecords(history, records[1..], next.value)
  }

  function MaxSeq(records: seq<Message>, floor: nat): nat {
    if records == [] then floor
    else MaxSeq(records[1..], if records[0].seqNo > floor then records[0].seqNo else floor)
  }

  /** One import transaction: the first must find no messages, later ones the revision they expect. */
  function ImportBatch(db: Db, records: seq<Message>, expected: Option<nat>): Result<Db, Error> {
    if db.historyRevision != db.searchRevision then Err(StoreCorrupt)
    else if expected.None? && db.messages != [] then Err(StoreNotEmpty)
    else if expected.Some? && expected.value != db.historyRevision then Err(VersionConflict)
    else if records == [] then Ok(db)
    else
      var d := InsertRecords(db.history, records, Contents(db.messages, db.tables));
      if d.None? then Err(ConstraintFailed)
      else Ok(db.(messages := d.value.messages, tables := d.value.tables,
                  historyRevision := db.historyRevision + 1, searchRevision := db.searchRevision + 1,
                  highWater := MaxSeq(records, db.highWater)))
  }

  datatype Imported = Imported(db: Db, result: Result<nat, Error>)

  /** Batches of 500 until the records run out or one is refused; committed batches stay. */
  function ImportFrom(db: Db, records: seq<Message>, expected: Option<nat>, count: nat): Imported
    decreases |records|
  {
    var batch := if |records| <= IMPORT_BATCH_SIZE then records else records[..IMPORT_BATCH_SIZE];
    var step := ImportBatch(db, batch, expected);
    if step.Err? then Imported(db, Err(step.error))
    else if |records| <= IMPORT_BATCH_SIZE then Imported(step.value, Ok(count + |batch|))
    else ImportFrom(step.value, records[IMPORT_BATCH_SIZE..], Some(db.historyRevision + 1), count + |batch|)
  }

  /** The whole import runs under the write lock. */
  function Import(db: Db, records: seq<Message>): Imported {
    ImportFrom(db, records, None, 0)
  }

  // ---------------------------------------------------------------- clear

  function Clear(db: Db): Result<Db, Error> {
    if db.historyRevision != db.searchRevision then Err(StoreCorrupt)
    else Ok(db.(messages := [], receipts := map[], tables := Tables(map[], map[]), forest := NoForest,
                generation := db.generation + 1, historyRevision := db.historyRevision + 1,
                searchRevision := db.searchRevision + 1, indexRevision := db.indexRevision + 1, committedSeq := 0))
  }

  // ---------------------------------------------------------------- index read and publish

  /** Rows with sequence numbers in a range, in sequence order. */
  function InRange(messages: seq<Message>, from: nat, to: nat): seq<Message> {
    if messages == [] then []
    else
      var last := messages[|messages|-1];
      InRange(messages[..|messages|-1], from, to) + (if from <= last.seqNo <= to then [last] else [])
  }

  function PendingMessages(messages: seq<Message>, from: nat, to: nat): seq<Message> {
    SortBy((m: Message) => m.seqNo, InRange(messages, from, to))
  }

  function PendingRows(messages: seq<Message>, from: nat, to: nat): seq<Row> {
    var ms := PendingMessages(messages, from, to);
    seq(|ms|, i requires 0 <= i < |ms| => Row(ms[i].seqNo, ms[i].text))
  }

  /** What index() captures in its short read. */
  datatype Capture = Capture(historyRevision: nat, indexRevision: nat, generation: nat, backlog: Backlog)

  function IndexRead(db: Db, rebuild: bool): Result<Capture, Error> {
    if db.historyRevision != db.searchRevision then Err(StoreCorrupt)
    else
      var from := if rebuild then 1 else db.committedSeq + 1;
      Ok(Capture(db.historyRevision, db.indexRevision, db.generation,
                 Backlog(if rebuild then NoForest else db.forest, PendingRows(db.messages, from, db.highWater),
                         db.nextNode, db.indexRevision)))
  }

  /** A titled plan and the revisions its input was captured under. */
  datatype Proposal = Proposal(historyRevision: nat, indexRevision: nat, generation: nat,
                               forest: Forest, lastSeq: nat, nextNode: Id)

  /** Publication replaces the tree, and only while nothing the proposal was computed from has changed. */
  function Publish(db: Db, p: Proposal): Result<Db, Error> {
    if db.historyRevision != db.searchRevision then Err(StoreCorrupt)
    else if db.historyRevision != p.historyRevision || db.indexRevision != p.indexRevision
         || db.generation != p.generation
    then Err(VersionConflict)
    else Ok(db.(forest := p.forest, indexRevision := db.indexRevision + 1, committedSeq := p.lastSeq,
                nextNode := if p.nextNode > db.nextNode then p.nextNode else db.nextNode))
  }
}
