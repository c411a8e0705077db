/** The store as an object whose locked sections update its tables in place, each an instance of its transaction. */
module HistoryStore {
  import opened Wrappers
  import opened Sequences
  import opened Records
  import opened SearchIndex
  import opened SearchMaintenance
  import opened Hierarchy
  import opened HierarchyReplan
  import opened Indexing
  import opened IndexRuns
  import opened Transactions
  import opened StoreInvariants
  import opened PublishInvariants
  import opened IngestContents
  import opened IngestDecisions

  class HistoryStore {
    const history: string
    /** The fan-out the store is configured with. */
    const fanout: nat
    var messages: seq<Message>
    var receipts: Receipts
    var tables: Tables
    var forest: Forest
    var historyRevision: nat
    var searchRevision: nat
    var indexRevision: nat
    var generation: nat
    var committedSeq: nat
    var highWater: nat
    var nextNode: Id

    function Now(): Db
      reads this
    {
      Db(history, messages, receipts, tables, forest, historyRevision, searchRevision, indexRevision, generation,
         committedSeq, highWater, nextNode)
    }

    /** What every committed state satisfies. */
    ghost predicate Valid()
      reads this
    {
      2 <= fanout && DbOk(Now(), fanout)
    }

    constructor (id: string, maxChildren: nat)
      ensures Now() == NewDb(id) && fanout == maxChildren && (2 <= maxChildren ==> Valid())
    {
      if 2 <= maxChildren { NewDbOk(id, maxChildren); }
      fanout := maxChildren;
      history, messages, receipts, tables, forest := id, [], map[], Tables(map[], map[]), NoForest;
      historyRevision, searchRevision, indexRevision, generation := 0, 0, 0, 0;
      committedSeq, highWater, nextNode := 0, 0, 0;
    }

    /** The first pass: does any message contradict what is stored under its external identifier? */
    method FindConflict(b: Batch) returns (found: bool)
      ensures found <==> exists i :: 0 <= i < |b.messages| && Conflicts(messages, b.source, b.messages[i])
    {
      for i := 0 to |b.messages|
        invariant forall j :: 0 <= j < i ==> !Conflicts(messages, b.source, b.messages[j])
      {
        var m := b.messages[i];
        if m.externalId.Some? {
          var stored := FindExternal(messages, b.source, m.externalId.value);
          if stored.Some? && stored.value.payload != PayloadOf(m) {
            return true;
          }
        }
      }
      return false;
    }

    /** The insertion loop; a violated constraint rolls the tables back. */
    method InsertMessages(b: Batch) returns (ok: bool, nextSeq: nat, skipped: nat)
      requires |b.messages| == |b.stamps|
      modifies this`messages, this`tables
      ensures var done := InsertFrom(history, b, 0, Progress(Contents(old(messages), old(tables)), highWater + 1, 0));
              && (ok <==> done.Some?)
              && (ok ==> done.value == Progress(Contents(messages, tables), nextSeq, skipped))
              && (!ok ==> messages == old(messages) && tables == old(tables))
    {
      var savedMessages, savedTables := messages, tables;
      nextSeq, skipped := highWater + 1, 0;
      for idx := 0 to |b.messages|
        invariant InsertFrom(history, b, idx, Progress(Contents(messages, tables), nextSeq, skipped)) ==
                  InsertFrom(history, b, 0, Progress(Contents(savedMessages, savedTables), highWater + 1, 0))
      {
        var m := b.messages[idx];
        if m.externalId.Some? && FindExternal(messages, b.source, m.externalId.value).Some? {
          skipped := skipped + 1;
        } else {
          var row := RowFor(history, b, idx, nextSeq);
          if exists n :: n in messages && Clashes(n, row) {
            messages, tables := savedMessages, savedTables;
            return false, nextSeq, skipped;
          }
          messages, tables := messages + [row], AddRow(tables, row);
          nextSeq := nextSeq + 1;
        }
      }
      return true, nextSeq, skipped;
    }

    /** One ingest call under the write lock. */
    method IngestBatch(b: Batch) returns (reply: Reply)
      requires |b.messages| == |b.stamps|
      modifies this
      ensures Ingested(Now(), reply) == Ingest(old(Now()), b)
      ensures old(Valid()) ==> Valid()
      ensures !reply.Committed? ==> Now() == old(Now())
      ensures reply.Committed? ==> Adds(old(Now()), b, messages)
      ensures old(Valid()) && Legal(b) && (b.source, b.key) !in old(receipts) ==>
                && (reply == Refused(MessageConflict) <==> Contradictory(old(messages), b))
                && (reply.Committed? <==> !Contradictory(old(messages), b) && !SomeBlocked(old(messages), b, 0))
    {
      hide InsertFrom, Conflicts, RequestDigest, DbOk, Adds, Legal, Contradictory, SomeBlocked;
      IngestIsSound(Now(), b, fanout);
      if b.messages == [] || |b.messages| > MAX_MESSAGES_PER_BATCH {
        return Refused(InvalidInput);
      }
      if historyRevision != searchRevision {
        return Refused(StoreCorrupt);
      }
      var digest := RequestDigest(b.messages, b.source, b.session);
      if (b.source, b.key) in receipts {
        var receipt := receipts[(b.source, b.key)];
        if receipt.digest == digest {
          return Replayed(receipt);
        }
        return Refused(IdempotencyConflict);
      }
      var conflict := FindConflict(b);
      if conflict {
        return Refused(MessageConflict);
      }
      var seqStart := highWater + 1;
      var ok, nextSeq, skipped := InsertMessages(b);
      if !ok {
        return Refused(ConstraintFailed);
      }
      var inserted := nextSeq > seqStart;
      var receipt := Receipt(digest, if inserted then Some(seqStart) else None,
                             if inserted then Some(nextSeq - 1) else None, skipped);
      receipts := receipts[(b.source, b.key) := receipt];
      historyRevision, searchRevision := historyRevision + 1, searchRevision + 1;
      if inserted {
        highWater := nextSeq - 1;
      }
      return Committed(receipt);
    }

    /** One import transaction, its rows inserted one by one and rolled back together. */
    method ImportRecords(records: seq<Message>, expected: Option<nat>) returns (r: Result<(), Error>)
      modifies this
      ensures match ImportBatch(old(Now()), records, expected)
              case Ok(db) => r.Ok? && Now() == db
              case Err(e) => r == Err(e) && Now() == old(Now())
    {
      if historyRevision != searchRevision {
        return Err(StoreCorrupt);
      }
      if expected.None? {
        if messages != [] {
          return Err(StoreNotEmpty);
        }
      } else if expected.value != historyRevision {
        return Err(VersionConflict);
      }
      if records == [] {
        return Ok(());
      }
      var savedMessages, savedTables := messages, tables;
      var maxSeq: nat := highWater;
      assert records[0..] == records;
      for i := 0 to |records|
        invariant Now() == old(Now()).(messages := messages, tables := tables)
        invariant InsertRecords(history, records[i..], Contents(messages, tables)) ==
                  InsertRecords(history, records, Contents(savedMessages, savedTables))
        invariant MaxSeq(records[i..], maxSeq) == MaxSeq(records, highWater)
      {
        var row := records[i].(history := history);
        assert records[i..][0] == records[i] && records[i..][1..] == records[i+1..];
        if exists n :: n in messages && Clashes(n, row) {
          messages, tables := savedMessages, savedTables;
          return Err(ConstraintFailed);
        }
        messages, tables := messages + [row], AddRow(tables, row);
        if records[i].seqNo > maxSeq {
          maxSeq := records[i].seqNo;
        }
      }
      assert records[|records|..] == [];
      hide InsertRecords, Clashes, AddRow;
      historyRevision, searchRevision := historyRevision + 1, searchRevision + 1;
      highWater := maxSeq;
      return Ok(());
    }

    /** A whole import under the write lock: batches of 500, each its own transaction. */
    method ImportHistory(records: seq<Message>) returns (r: Result<nat, Error>)
      modifies this
      ensures Imported(Now(), r) == Import(old(Now()), records)
      ensures old(Valid()) && StoreInvariants.Numbered(records) ==> Valid()
    {
      ImportIsSound(Now(), records, fanout);
      hide DbOk, StoreInvariants.Numbered, ImportBatch, Import;
      var start: nat, imported: nat := 0, 0;
      var expected: Option<nat> := None;
      assert records[0..] == records;
      while true
        invariant start <= |records|
        invariant ImportFrom(Now(), records[start..], expected, imported) == ImportFrom(old(Now()), records, None, 0)
        decreases |records| - start
      {
        var rest := records[start..];
        var batch := if |rest| <= IMPORT_BATCH_SIZE then rest else rest[..IMPORT_BATCH_SIZE];
        hide ImportBatch;
        var next := historyRevision + 1;
        var step := ImportRecords(batch, expected);
        if step.Err? {
          return Err(step.error);
        }
        imported := imported + |batch|;
        if |rest| <= IMPORT_BATCH_SIZE {
          return Ok(imported);
        }
        assert rest[IMPORT_BATCH_SIZE..] == records[start + IMPORT_BATCH_SIZE..];
        start, expected := start + IMPORT_BATCH_SIZE, Some(next);
      }
    }

    /**
     * The atomic wipe and generation rotation.  Nothing of the history remains, but the sequence numbers it
     * used are not given again, and no proposal captured before it will be accepted after it.
     */
    method ClearHistory() returns (r: Result<(), Error>)
      modifies this
      ensures match Clear(old(Now()))
              case Ok(db) => r.Ok? && Now() == db
              case Err(e) => r == Err(e) && Now() == old(Now())
      ensures old(Valid()) ==> r.Ok? && Valid() && Unbroken(Now())
      ensures r.Ok? ==> messages == [] && receipts == map[] && forest == NoForest && highWater == old(highWater)
      ensures r.Ok? ==> forall p: Proposal :: p.generation <= old(generation) ==>
                Transactions.Publish(Now(), p) == Err(VersionConflict)
    {
      ClearIsSound(Now(), fanout);
      hide DbOk, Unbroken, Transactions.Publish;
      if historyRevision != searchRevision {
        return Err(StoreCorrupt);
      }
      messages, receipts, tables, forest := [], map[], Tables(map[], map[]), NoForest;
      generation, historyRevision, searchRevision := generation + 1, historyRevision + 1, searchRevision + 1;
      indexRevision, committedSeq := indexRevision + 1, 0;
      return Ok(());
    }

    /**
     * The revision-checked publication.  It replaces the tree and nothing else, and no proposal is accepted
     * twice.  What an index call made of the present state is accepted and keeps the store valid, and its
     * leaf spans cover the messages up to the new mark if it was a rebuild or the old ones did.
     */
    method PublishIndex(p: Proposal) returns (r: Result<(), Error>)
      modifies this
      ensures match Transactions.Publish(old(Now()), p)
              case Ok(db) => r.Ok? && Now() == db
              case Err(e) => r == Err(e) && Now() == old(Now())
      ensures forall rebuild: bool, cfg: Settings ::
                old(Valid()) && cfg.m == fanout && old(IndexRead(Now(), rebuild)).Ok?
                  && Planned(old(IndexRead(Now(), rebuild)).value, cfg, p) ==>
                  r.Ok? && Valid() && (Unbroken(Now()) <==> rebuild || old(Unbroken(Now())))
      ensures messages == old(messages) && receipts == old(receipts) && tables == old(tables)
              && highWater == old(highWater)
      ensures r.Ok? ==> forest == p.forest && Transactions.Publish(Now(), p) == Err(VersionConflict)
    {
      ghost var before := Now();
      forall rebuild: bool, cfg: Settings |
        DbOk(before, fanout) && cfg.m == fanout && IndexRead(before, rebuild).Ok?
          && Planned(IndexRead(before, rebuild).value, cfg, p)
        ensures Transactions.Publish(before, p).Ok? && DbOk(Transactions.Publish(before, p).value, fanout)
        ensures Unbroken(Transactions.Publish(before, p).value) <==> rebuild || Unbroken(before)
      {
        PlannedKeepsOk(before, rebuild, cfg, p);
      }
      hide DbOk, Unbroken, Planned, IndexRead;
      if historyRevision != searchRevision {
        return Err(StoreCorrupt);
      }
      if historyRevision != p.historyRevision || indexRevision != p.indexRevision || generation != p.generation {
        return Err(VersionConflict);
      }
      forest, committedSeq, indexRevision := p.forest, p.lastSeq, indexRevision + 1;
      if p.nextNode > nextNode {
        nextNode := p.nextNode;
      }
      return Ok(());
    }

    method CopyRowIds(rows: seq<IdRow>) returns (kept: map<RowId, MessageId>)
      ensures kept == IdMap(rows)
    {
      kept := map[];
      for k := 0 to |rows|
        invariant kept == IdMap(rows[..k])
      {
        assert rows[..k+1][..k] == rows[..k];
        if rows[k].rowid.Some? {
          kept := kept[rows[k].rowid.value := rows[k].messageId];
        }
      }
      assert rows[..|rows|] == rows;
    }

    /** The identity map a rebuild keeps: the first table that still holds a complete one, or a fresh numbering. */
    method PreserveRowIds(fts: Damaged, compact: Damaged) returns (kept: map<RowId, MessageId>)
      ensures kept == KeptRows(messages, fts, compact)
    {
      assert Usable(messages, fts, false) ==> fts.Some?;
      assert Usable(messages, compact, true) ==> compact.Some?;
      hide Usable, IdMap;
      if Usable(messages, fts, false) {
        kept := CopyRowIds(fts.value);
        return;
      }
      if Usable(messages, compact, true) {
        kept := CopyRowIds(compact.value);
        return;
      }
      var ordered := SortBy((m: Message) => m.seqNo, WithText(messages));
      kept := map[];
      for k := 0 to |ordered|
        invariant kept == NumberFrom(ordered[..k])
      {
        assert ordered[..k+1][..k] == ordered[..k];
        kept := kept[RowId(k + 1) := ordered[k].id];
      }
      assert ordered[..|ordered|] == ordered;
    }

    /** Explicit recovery: drop both derived tables, refill them from the messages, and check the result. */
    method RebuildSearchIndex(fts: Damaged, compact: Damaged) returns (r: Result<(), Error>)
      modifies this
      ensures match Rebuild(history, old(messages), fts, compact)
              case Some(t) => r.Ok? && Now() == old(Now()).(tables := t, searchRevision := old(historyRevision))
              case None => r == Err(StoreCorrupt) && Now() == old(Now())
    {
      var saved := tables;
      var kept := PreserveRowIds(fts, compact);
      tables := Tables(map[], map[]);
      tables := tables.(fts := Refill(messages, kept));
      tables := tables.(compact := Backfill(messages, tables.fts));
      if !Validates(history, messages, tables) {
        tables := saved;
        return Err(StoreCorrupt);
      }
      searchRevision := historyRevision;
      return Ok(());
    }
  }

  lemma IngestIsSound(db: Db, b: Batch, m: nat)
    requires |b.messages| == |b.stamps|
    ensures DbOk(db, m) ==> DbOk(Ingest(db, b).db, m)
    ensures !Ingest(db, b).reply.Committed? ==> Ingest(db, b).db == db
    ensures Ingest(db, b).reply.Committed? ==> Adds(db, b, Ingest(db, b).db.messages)
    ensures DbOk(db, m) && Legal(b) && (b.source, b.key) !in db.receipts ==>
              && (Ingest(db, b).reply == Refused(MessageConflict) <==> Contradictory(db.messages, b))
              && (Ingest(db, b).reply.Committed? <==>
                    !Contradictory(db.messages, b) && !SomeBlocked(db.messages, b, 0))
  {
    UncommittedSame(db, b);
    hide *;
    if DbOk(db, m) {
      IngestKeepsOk(db, b, m);
      DbParts(db, m);
      if Legal(b) && (b.source, b.key) !in db.receipts { IngestDecides(db, b); }
    }
    if Ingest(db, b).reply.Committed? { IngestStores(db, b); }
  }

  lemma UncommittedSame(db: Db, b: Batch)
    requires |b.messages| == |b.stamps|
    ensures !Ingest(db, b).reply.Committed? ==> Ingest(db, b).db == db
  {
    hide InsertFrom, Conflicts, RequestDigest;
  }

  lemma ClearIsSound(db: Db, m: nat)
    ensures 2 <= m && DbOk(db, m) ==> Clear(db).Ok? && DbOk(Clear(db).value, m) && Unbroken(Clear(db).value)
    ensures Clear(db).Ok? ==> forall p: Proposal ::
              p.generation <= db.generation ==> Transactions.Publish(Clear(db).value, p) == Err(VersionConflict)
  {
    if 2 <= m && DbOk(db, m) { ClearKeepsOk(db, m); }
    hide DbOk, Unbroken;
  }

  lemma ImportIsSound(db: Db, records: seq<Message>, m: nat)
    ensures DbOk(db, m) && StoreInvariants.Numbered(records) ==> DbOk(Import(db, records).db, m)
    ensures Import(db, records) == ImportFrom(db, records, None, 0)
  {
    assert Import(db, records) == ImportFrom(db, records, None, 0);
    hide *;
    if DbOk(db, m) && StoreInvariants.Numbered(records) { ImportKeepsOk(db, records, m); }
  }
}
