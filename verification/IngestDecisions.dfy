/**
 * When an ingest is refused and when it is committed, said over the stored rows and the batch
 * (packages/python/src/cci/ingest.py).
 */
module IngestDecisions {
  import opened Wrappers
  import opened Sequences
  import opened Records
  import opened SearchMaintenance
  import opened Transactions
  import opened StoreInvariants
  import opened IngestContents

  /** A row of the batch's source has the message's external identifier and another payload. */
  ghost predicate Contradicts(messages: seq<Message>, b: Batch, i: nat)
    requires i < |b.messages|
  {
    exists m :: m in messages && m.source == b.source && b.messages[i].externalId.Some? &&
                m.externalId == b.messages[i].externalId && !SaysTheSame(m.payload, b.messages[i])
  }

  ghost predicate Contradictory(messages: seq<Message>, b: Batch) {
    exists i :: 0 <= i < |b.messages| && Contradicts(messages, b, i)
  }

  /** The identifier drawn for the message is that of a stored row. */
  ghost predicate StampTaken(messages: seq<Message>, b: Batch, i: nat)
    requires i < |b.messages| == |b.stamps|
  {
    exists m :: m in messages && m.id == b.stamps[i].id
  }

  /** A row of the same source already has the batch's key and the message's position. */
  ghost predicate PlaceTaken(messages: seq<Message>, b: Batch, i: nat)
    requires i < |b.messages|
  {
    b.messages[i].externalId.None? &&
    exists m :: m in messages && m.source == b.source && m.externalId.None? && m.key == Some(b.key)
      && m.position == Some(i)
  }

  /** An earlier message to be stored was drawn the same identifier. */
  ghost predicate StampShared(messages: seq<Message>, b: Batch, i: nat)
    requires i < |b.messages| == |b.stamps|
  {
    exists j :: 0 <= j < i && !Repeats(messages, b, j) && b.stamps[j].id == b.stamps[i].id
  }

  /** The message repeats nothing, and cannot be stored. */
  ghost predicate Blocked(messages: seq<Message>, b: Batch, i: nat)
    requires i < |b.messages| == |b.stamps|
  {
    && !Repeats(messages, b, i)
    && (StampTaken(messages, b, i) || StampShared(messages, b, i) || PlaceTaken(messages, b, i))
  }

  ghost predicate SomeBlocked(messages: seq<Message>, b: Batch, n: nat)
    requires n <= |b.messages| == |b.stamps|
  {
    exists i :: n <= i < |b.messages| && Blocked(messages, b, i)
  }

  /** The rows stored before message `i`, and the row it would get. */
  function Stored(db: Db, b: Batch, i: nat): seq<Message>
    requires i <= |b.messages| == |b.stamps|
  {
    RowsFor(db.history, b, Firsts(db.messages, b, i), db.highWater + 1)
  }

  function NextRow(db: Db, b: Batch, i: nat): Message
    requires i < |b.messages| == |b.stamps|
  {
    RowFor(db.history, b, i, db.highWater + 1 + |Firsts(db.messages, b, i)|)
  }

  /** The constraints refuse a row exactly when its message is blocked. */
  lemma ViolatesIs(db: Db, b: Batch, i: nat)
    requires i < |b.messages| == |b.stamps| && !Repeats(db.messages, b, i) && SeqsWithin(db.messages, db.highWater)
    ensures Violates(db.messages + Stored(db, b, i), NextRow(db, b, i)) <==> Blocked(db.messages, b, i)
  {
    ViolatesEither(db.messages, Stored(db, b, i), NextRow(db, b, i));
    ViolatesStored(db, b, i);
    hide Violates, StampTaken, StampShared, PlaceTaken, Repeats, Stored, NextRow;
    if Violates(Stored(db, b, i), NextRow(db, b, i)) { EarlierShares(db, b, i); }
    if StampShared(db.messages, b, i) { SharedViolates(db, b, i); }
  }

  lemma ViolatesEither(a: seq<Message>, b: seq<Message>, m: Message)
    ensures Violates(a + b, m) <==> Violates(a, m) || Violates(b, m)
  {
    hide Clashes;
    forall n ensures n in a + b <==> n in a || n in b {}
  }

  lemma NoneWith(messages: seq<Message>, source: string, id: string)
    requires !HasExternal(messages, source, id)
    ensures forall m :: m in messages && m.source == source ==> m.externalId != Some(id)
  {}

  lemma ViolatesStored(db: Db, b: Batch, i: nat)
    requires i < |b.messages| == |b.stamps| && !Repeats(db.messages, b, i) && SeqsWithin(db.messages, db.highWater)
    ensures Violates(db.messages, NextRow(db, b, i)) <==>
            StampTaken(db.messages, b, i) || PlaceTaken(db.messages, b, i)
  {
    var row := NextRow(db, b, i);
    if b.messages[i].externalId.Some? { NoneWith(db.messages, b.source, b.messages[i].externalId.value); }
    hide HasExternal, Firsts;
    if StampTaken(db.messages, b, i) {
      var m :| m in db.messages && m.id == b.stamps[i].id;
      assert Clashes(m, row);
    }
    if PlaceTaken(db.messages, b, i) {
      var m :| m in db.messages && m.source == b.source && m.externalId.None? && m.key == Some(b.key) &&
               m.position == Some(i);
      assert Clashes(m, row);
    }
  }

  lemma EarlierShares(db: Db, b: Batch, i: nat)
    requires i < |b.messages| == |b.stamps| && !Repeats(db.messages, b, i)
    requires Violates(Stored(db, b, i), NextRow(db, b, i))
    ensures StampShared(db.messages, b, i)
  {
    var firsts, rows, row := Firsts(db.messages, b, i), Stored(db, b, i), NextRow(db, b, i);
    hide Repeats, Clashes, RowFor, Firsts;
    var n :| n in rows && Clashes(n, row);
    var k :| 0 <= k < |rows| && rows[k] == n;
    assert firsts[k] in firsts;
    OnlyStamps(db.history, b, firsts[k], i, db.highWater + 1 + k, db.highWater + 1 + |firsts|, db.messages);
  }

  lemma SharedViolates(db: Db, b: Batch, i: nat)
    requires i < |b.messages| == |b.stamps| && StampShared(db.messages, b, i)
    ensures Violates(Stored(db, b, i), NextRow(db, b, i))
  {
    var firsts, rows := Firsts(db.messages, b, i), Stored(db, b, i);
    hide Repeats, Firsts;
    var j: nat :| j < i && !Repeats(db.messages, b, j) && b.stamps[j].id == b.stamps[i].id;
    assert j in firsts;
    var k :| 0 <= k < |firsts| && firsts[k] == j;
    assert rows[k] in rows && rows[k].id == b.stamps[j].id;
    assert Clashes(rows[k], NextRow(db, b, i));
  }

  /** Rows of two messages of a batch that repeat nothing can only share their identifier. */
  lemma OnlyStamps(history: string, b: Batch, j: nat, i: nat, p: nat, q: nat, before: seq<Message>)
    requires j < i < |b.messages| == |b.stamps| && p < q && !Repeats(before, b, i)
    requires Clashes(RowFor(history, b, j, p), RowFor(history, b, i, q))
    ensures b.stamps[j].id == b.stamps[i].id
  {}

  /** Where the loop is before message `i`. */
  ghost predicate Reached(db: Db, b: Batch, i: nat, p: Progress)
    requires i <= |b.messages| == |b.stamps|
  {
    p.nextSeq == db.highWater + 1 + |Firsts(db.messages, b, i)| && p.draft.messages == db.messages + Stored(db, b, i)
  }

  lemma ReachedNext(db: Db, b: Batch, i: nat, p: Progress)
    requires i < |b.messages| == |b.stamps| && Reached(db, b, i, p)
    ensures AlreadyStored(p.draft.messages, b.source, b.messages[i]) <==> Repeats(db.messages, b, i)
    ensures Repeats(db.messages, b, i) ==> Reached(db, b, i + 1, p.(skipped := p.skipped + 1))
    ensures RowFor(db.history, b, i, p.nextSeq) == NextRow(db, b, i)
    ensures !Repeats(db.messages, b, i) ==>
              forall d: Contents :: d.messages == p.draft.messages + [NextRow(db, b, i)] ==>
              Reached(db, b, i + 1, Progress(d, p.nextSeq + 1, p.skipped))
  {
    StoredIsRepeated(db.history, db.messages, b, i, db.highWater + 1);
    RowsForOneMore(db.history, db.messages, b, i, db.highWater + 1);
    hide AlreadyStored, Repeats, RowsFor, RowFor, Firsts;
    assert db.messages + Stored(db, b, i) + [NextRow(db, b, i)] ==
             db.messages + (Stored(db, b, i) + [NextRow(db, b, i)]);
  }

  /** The loop gets through from message `i` on exactly when none of the rest is blocked. */
  lemma {:induction false} InsertFromDecides(db: Db, b: Batch, i: nat, p: Progress)
    requires i <= |b.messages| == |b.stamps| && SeqsWithin(db.messages, db.highWater) && Reached(db, b, i, p)
    ensures InsertFrom(db.history, b, i, p).Some? <==> !SomeBlocked(db.messages, b, i)
    decreases |b.messages| - i
  {
    assert p.draft.messages == db.messages + Stored(db, b, i);
    hide *;
    InsertFromCases(db.history, b, i, p);
    if i == |b.messages| {
      NothingBlocked(db.messages, b);
    } else {
      BlockedHere(db.messages, b, i);
      ReachedNext(db, b, i, p);
      if Repeats(db.messages, b, i) {
        InsertFromDecides(db, b, i + 1, p.(skipped := p.skipped + 1));
      } else {
        var d := Insert(p.draft, NextRow(db, b, i));
        ViolatesIs(db, b, i);
        InsertIs(p.draft, NextRow(db, b, i));
        if d.Some? { InsertFromDecides(db, b, i + 1, Progress(d.value, p.nextSeq + 1, p.skipped)); }
      }
    }
  }

  lemma InsertIs(d: Contents, row: Message)
    ensures Insert(d, row).Some? <==> !Violates(d.messages, row)
  {
    hide Violates, AddRow;
  }

  lemma NothingBlocked(before: seq<Message>, b: Batch)
    requires |b.messages| == |b.stamps|
    ensures !SomeBlocked(before, b, |b.messages|)
  {}

  lemma BlockedHere(before: seq<Message>, b: Batch, i: nat)
    requires i < |b.messages| == |b.stamps|
    ensures SomeBlocked(before, b, i) <==> Blocked(before, b, i) || SomeBlocked(before, b, i + 1)
    ensures Blocked(before, b, i) ==> !Repeats(before, b, i)
  {
    hide StampTaken, PlaceTaken, Repeats;
    if SomeBlocked(before, b, i) && !Blocked(before, b, i) {
      var k :| i <= k < |b.messages| && Blocked(before, b, k);
      assert k >= i + 1;
    }
  }

  lemma ConflictsAre(messages: seq<Message>, b: Batch, i: nat)
    requires ClashFree(messages) && i < |b.messages|
    ensures Conflicts(messages, b.source, b.messages[i]) <==> Contradicts(messages, b, i)
  {
    var m := b.messages[i];
    if m.externalId.Some? {
      FindExternalFacts(messages, b.source, m.externalId.value);
      if Contradicts(messages, b, i) {
        var n :| n in messages && n.source == b.source && n.externalId == m.externalId && !SaysTheSame(n.payload, m);
        assert HasExternal(messages, b.source, m.externalId.value);
        SameExternal(messages, n, FindExternal(messages, b.source, m.externalId.value).value);
      }
    }
    hide ClashFree, FindExternal;
  }

  ghost predicate Legal(b: Batch) {
    0 < |b.messages| <= MAX_MESSAGES_PER_BATCH
  }

  /**
   * A batch of legal size under a new key is refused for a conflict exactly when it contradicts a stored row,
   * by the constraints exactly when a message that repeats nothing is blocked, and committed otherwise.
   */
  lemma IngestDecides(db: Db, b: Batch)
    requires RowsOk(db) && db.historyRevision == db.searchRevision && |b.messages| == |b.stamps|
    requires Legal(b) && (b.source, b.key) !in db.receipts
    ensures var reply := Ingest(db, b).reply;
            && (reply == Refused(MessageConflict) <==> Contradictory(db.messages, b))
            && (reply == Refused(ConstraintFailed) <==>
                  !Contradictory(db.messages, b) && SomeBlocked(db.messages, b, 0))
            && (reply.Committed? <==> !Contradictory(db.messages, b) && !SomeBlocked(db.messages, b, 0))
  {
    forall i | 0 <= i < |b.messages|
      ensures Conflicts(db.messages, b.source, b.messages[i]) <==> Contradicts(db.messages, b, i)
    {
      ConflictsAre(db.messages, b, i);
    }
    InsertFromDecides(db, b, 0, Progress(Contents(db.messages, db.tables), db.highWater + 1, 0));
    hide InsertFrom, Conflicts, Contradicts, SomeBlocked, RequestDigest, RowsOk;
  }

  /** Identifiers not in use, one for each message. */
  ghost predicate UnusedStamps(messages: seq<Message>, b: Batch) {
    && (forall m, i :: m in messages && 0 <= i < |b.stamps| ==> m.id != b.stamps[i].id)
    && (forall i, j :: 0 <= i < j < |b.stamps| ==> b.stamps[i].id != b.stamps[j].id)
  }

  ghost predicate SomePlaceTaken(messages: seq<Message>, b: Batch) {
    exists i :: 0 <= i < |b.messages| && PlaceTaken(messages, b, i)
  }

  /** With unused identifiers only a row that came by import, under the same key, can be in the way. */
  lemma UnusedStampsDecide(db: Db, b: Batch)
    requires RowsOk(db) && db.historyRevision == db.searchRevision && |b.messages| == |b.stamps|
    requires Legal(b) && (b.source, b.key) !in db.receipts && UnusedStamps(db.messages, b)
    ensures Ingest(db, b).reply.Committed? <==> !Contradictory(db.messages, b) && !SomePlaceTaken(db.messages, b)
  {
    IngestDecides(db, b);
    hide Ingest, Contradictory, HasExternal, RowsOk;
    if SomePlaceTaken(db.messages, b) {
      var i :| 0 <= i < |b.messages| && PlaceTaken(db.messages, b, i);
      assert Blocked(db.messages, b, i);
    }
    if SomeBlocked(db.messages, b, 0) {
      var i :| 0 <= i < |b.messages| && Blocked(db.messages, b, i);
      assert PlaceTaken(db.messages, b, i);
    }
  }

  /**
   * An import leaves no receipts, so a row it brought can stand in the way of a later batch under its key: the
   * batch is new, contradicts nothing, and its identifiers are unused, yet the constraints refuse it.
   */
  lemma ImportedKeyBlocks() returns (record: Message, b: Batch)
    ensures ImportBatch(NewDb("h"), [record], None).Ok?
    ensures var db := ImportBatch(NewDb("h"), [record], None).value;
            && RowsOk(db) && db.receipts == map[] && Legal(b) && |b.messages| == |b.stamps|
            && !Contradictory(db.messages, b) && UnusedStamps(db.messages, b)
            && Ingest(db, b).reply == Refused(ConstraintFailed)
  {
    var m := InputMessage("user", Plain("noon"), None, None, None, None);
    var p := PayloadOf(m);
    record := Message(0, 1, "", "s", None, Some("k"), Some(0), p, Some("noon"), PayloadDigest(p), None, 0);
    b := Batch("s", "k", [m], None, [Stamp(1, 0)]);
    var db := NewDb("h");
    var row := record.(history := "h");
    NewDbOk("h", 2);
    assert !Violates([], row) && [record][1..] == [] && [] + [row] == [row];
    assert Insert(Contents([], db.tables), row) == Some(Contents([row], AddRow(db.tables, row)));
    assert InsertRecords("h", [record], Contents([], db.tables)) == Some(Contents([row], AddRow(db.tables, row)));
    ImportBatchEffect(db, [record], None);
    var after := ImportBatch(db, [record], None).value;
    assert after.messages == [row] && row in after.messages;
    hide InsertRecords, RowsOk, ClashFree, Ingest, ImportBatch, MaxSeq, Insert;
    OneRowBlocks(after, row, b);
  }

  lemma OneRowBlocks(db: Db, row: Message, b: Batch)
    requires RowsOk(db) && db.historyRevision == db.searchRevision && db.receipts == map[] && db.messages == [row]
    requires |b.messages| == |b.stamps| == 1 && b.messages[0].externalId.None? && row.id != b.stamps[0].id
    requires row.source == b.source && row.externalId.None? && row.key == Some(b.key) && row.position == Some(0)
    ensures !Contradictory(db.messages, b) && UnusedStamps(db.messages, b)
    ensures Ingest(db, b).reply == Refused(ConstraintFailed)
  {
    assert row in db.messages;
    assert PlaceTaken(db.messages, b, 0);
    assert Blocked(db.messages, b, 0);
    hide Ingest, RowsOk;
    IngestDecides(db, b);
  }

  // ---------------------------------------------------------------- import

  lemma ClashFreeMore(a: seq<Message>, m: Message)
    requires ClashFree(a)
    ensures Violates(a, m) <==> !ClashFree(a + [m])
  {
    var more := a + [m];
    if Violates(a, m) {
      var n :| n in a && Clashes(n, m);
      var k :| 0 <= k < |a| && a[k] == n;
      assert Clashes(more[k], more[|a|]);
    } else {
      forall i, j | 0 <= i < j < |more| ensures !Clashes(more[i], more[j]) {
        if j == |a| { assert a[i] in a; }
      }
    }
  }

  /** All records are inserted exactly when no two of them and the stored rows clash. */
  lemma {:induction false} InsertRecordsDecides(history: string, records: seq<Message>, d: Contents, all: seq<Message>)
    requires ClashFree(d.messages) && |all| == |d.messages| + |records| && d.messages <= all
    requires forall k :: 0 <= k < |records| ==> all[|d.messages| + k] == records[k].(history := history)
    ensures InsertRecords(history, records, d).Some? <==> ClashFree(all)
    ensures InsertRecords(history, records, d).Some? ==> InsertRecords(history, records, d).value.messages == all
    decreases |records|
  {
    if records == [] {
      assert d.messages == all;
    } else {
      var m := records[0].(history := history);
      ClashFreeMore(d.messages, m);
      InsertIs(d, m);
      assert all[|d.messages|] == m && d.messages + [m] == all[..|d.messages| + 1];
      hide Clashes, Violates, ClashFree, AddRow;
      if Violates(d.messages, m) {
        if ClashFree(all) { PrefixFree(all, |d.messages| + 1); assert false; }
      } else {
        InsertRecordsDecides(history, records[1..], Insert(d, m).value, all);
      }
    }
  }

  lemma PrefixFree(all: seq<Message>, n: nat)
    requires ClashFree(all) && n <= |all|
    ensures ClashFree(all[..n])
  {}

  /** Two rows the table cannot both hold. */
  ghost predicate SameRow(m: Message, n: Message) {
    || m.id == n.id || m.seqNo == n.seqNo
    || (m.source == n.source && m.externalId.Some? && m.externalId == n.externalId)
    || (m.source == n.source && m.externalId.None? && n.externalId.None? &&
        m.key.Some? && m.key == n.key && m.position.Some? && m.position == n.position)
  }

  ghost predicate AllFit(rows: seq<Message>) {
    forall i, j :: 0 <= i < j < |rows| ==> !SameRow(rows[i], rows[j])
  }

  /** The stored rows followed by the records, under the history of the store. */
  function With(db: Db, records: seq<Message>): seq<Message> {
    db.messages + seq(|records|, k requires 0 <= k < |records| => records[k].(history := db.history))
  }

  lemma FitIsClashFree(db: Db, records: seq<Message>)
    ensures AllFit(With(db, records)) <==> ClashFree(With(db, records))
    ensures records == [] ==> With(db, records) == db.messages
    ensures RowsOk(db) ==> ClashFree(db.messages)
  {
    var all := With(db, records);
    if AllFit(all) {
      forall i, j | 0 <= i < j < |all| ensures !Clashes(all[i], all[j]) { assert !SameRow(all[i], all[j]); }
    }
    if ClashFree(all) {
      forall i, j | 0 <= i < j < |all| ensures !SameRow(all[i], all[j]) { assert !Clashes(all[i], all[j]); }
    }
  }

  lemma InsertsDecide(db: Db, records: seq<Message>)
    requires RowsOk(db)
    ensures var d := InsertRecords(db.history, records, Contents(db.messages, db.tables));
            && (d.Some? <==> ClashFree(With(db, records))) && (d.Some? ==> d.value.messages == With(db, records))
  {
    hide InsertRecords;
    InsertRecordsDecides(db.history, records, Contents(db.messages, db.tables), With(db, records));
  }

  /** Exactly the records are new, and the high-water mark is the highest number there has been. */
  ghost predicate Added(db: Db, records: seq<Message>, after: Db) {
    && after.messages == With(db, records)
    && after.historyRevision == db.historyRevision + (if records == [] then 0 else 1)
    && db.highWater <= after.highWater && (forall x :: x in records ==> x.seqNo <= after.highWater)
    && (after.highWater == db.highWater || exists x :: x in records && x.seqNo == after.highWater)
  }

  /**
   * When an import transaction is refused: the first when the store holds a message, a later one when the
   * history moved on, and either when its records cannot be held beside what is stored.  A committed one
   * adds exactly the records, and the high-water mark is the highest number there has been.
   */
  lemma ImportDecides(db: Db, records: seq<Message>, expected: Option<nat>)
    requires RowsOk(db) && db.historyRevision == db.searchRevision
    ensures var r := ImportBatch(db, records, expected);
            && (r == Err(StoreNotEmpty) <==> expected.None? && db.messages != [])
            && (r == Err(VersionConflict) <==> expected.Some? && expected.value != db.historyRevision)
            && (r.Ok? <==> r != Err(StoreNotEmpty) && r != Err(VersionConflict) && AllFit(With(db, records)))
            && (r.Err? ==> r.error in {StoreNotEmpty, VersionConflict, ConstraintFailed})
    ensures var r := ImportBatch(db, records, expected); r.Ok? ==> Added(db, records, r.value)
  {
    FitIsClashFree(db, records);
    InsertsDecide(db, records);
    MaxSeqFacts(records, db.highWater);
    hide InsertRecords, MaxSeq, ClashFree, AllFit, With, RowsOk;
  }

  /** Where the batch that begins at `n` ends. */
  function BatchEnd(records: seq<Message>, n: nat): nat {
    if n + IMPORT_BATCH_SIZE <= |records| then n + IMPORT_BATCH_SIZE else |records|
  }

  /** What an import that began in `db` and committed `n` records in batches returns and leaves. */
  ghost predicate StoppedAt(db: Db, records: seq<Message>, n: nat, done: Imported) {
    && n <= |records| && (n == |records| || n % IMPORT_BATCH_SIZE == 0)
    && done.db.messages == With(db, records[..n]) && done.db.historyRevision == db.historyRevision + Batches(n)
    && if n == |records| then done.result == Ok(n)
       else done.result == Err(ConstraintFailed) && !AllFit(With(db, records[..BatchEnd(records, n)]))
  }

  function Batches(n: nat): nat {
    (n + IMPORT_BATCH_SIZE - 1) / IMPORT_BATCH_SIZE
  }

  /** The state an import is in after its first `p` records. */
  ghost predicate HasAdded(db: Db, records: seq<Message>, p: nat, before: Db) {
    && p <= |records| && before.messages == With(db, records[..p]) && before.history == db.history
    && before.historyRevision == before.searchRevision == db.historyRevision + Batches(p) && RowsOk(before)
  }

  lemma OneBatch(db: Db, before: Db, records: seq<Message>, p: nat, expected: Option<nat>)
    requires HasAdded(db, records, p, before) && p % IMPORT_BATCH_SIZE == 0 && StoreInvariants.Numbered(records)
    requires expected == (if p == 0 then None else Some(before.historyRevision)) && db.messages == []
    ensures var q := BatchEnd(records, p);
            var step := ImportBatch(before, records[p..q], expected);
            && (step.Ok? <==> AllFit(With(db, records[..q]))) && (step.Err? ==> step.error == ConstraintFailed)
            && (step.Ok? ==> HasAdded(db, records, q, step.value))
  {
    var q := BatchEnd(records, p);
    var batch := records[p..q];
    assert With(before, batch) == With(db, records[..q]);
    assert p == 0 ==> before.messages == [];
    assert Batches(q) == Batches(p) + if p == q then 0 else 1;
    ImportDecides(before, batch, expected);
    ImportBatchEffect(before, batch, expected);
    hide RowsOk, ImportBatch, AllFit, With, Copied, Sourced, Batches;
  }

  lemma {:induction false} ImportFromStops(db: Db, before: Db, records: seq<Message>, p: nat, expected: Option<nat>)
    returns (n: nat)
    requires HasAdded(db, records, p, before) && p % IMPORT_BATCH_SIZE == 0 && StoreInvariants.Numbered(records)
    requires expected == (if p == 0 then None else Some(before.historyRevision)) && db.messages == []
    ensures StoppedAt(db, records, n, ImportFrom(before, records[p..], expected, p))
    decreases |records| - p
  {
    var rest, q := records[p..], BatchEnd(records, p);
    OneBatch(db, before, records, p, expected);
    assert records[p..q] == if |rest| <= IMPORT_BATCH_SIZE then rest else rest[..IMPORT_BATCH_SIZE];
    assert q < |records| ==> records[q..] == rest[IMPORT_BATCH_SIZE..];
    hide RowsOk, ImportBatch, AllFit, With, Batches;
    var step := ImportBatch(before, records[p..q], expected);
    if step.Ok? && |rest| > IMPORT_BATCH_SIZE {
      NextExpected(before, records[p..q], expected);
      n := ImportFromStops(db, step.value, records, q, Some(before.historyRevision + 1));
    } else {
      n := if step.Ok? then |records| else p;
    }
  }

  lemma NextExpected(db: Db, records: seq<Message>, expected: Option<nat>)
    requires records != [] && ImportBatch(db, records, expected).Ok?
    ensures ImportBatch(db, records, expected).value.historyRevision == db.historyRevision + 1
  {
    hide InsertRecords, MaxSeq;
  }

  /**
   * A whole import into an empty store adds its file in batches of 500 up to the first batch with a record that
   * cannot be held beside the others, and says how many it added exactly if that was all; any other store refuses it.
   */
  lemma ImportStops(db: Db, records: seq<Message>) returns (n: nat)
    requires RowsOk(db) && db.historyRevision == db.searchRevision && StoreInvariants.Numbered(records)
    ensures db.messages == [] ==> StoppedAt(db, records, n, Import(db, records))
    ensures db.messages != [] ==> Import(db, records) == Imported(db, Err(StoreNotEmpty))
  {
    var batch := if |records| <= IMPORT_BATCH_SIZE then records else records[..IMPORT_BATCH_SIZE];
    ImportDecides(db, batch, None);
    hide RowsOk, ImportBatch, AllFit;
    if db.messages == [] {
      assert With(db, records[..0]) == db.messages && records[0..] == records;
      hide With;
      n := ImportFromStops(db, db, records, 0, None);
    } else {
      n := 0;
    }
  }
}
