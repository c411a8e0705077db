/** What every committed state of the store satisfies, transaction by transaction. */
module StoreInvariants {
  import opened Wrappers
  import opened Sequences
  import opened Records
  import opened SearchIndex
  import opened SearchMaintenance
  import opened Hierarchy
  import opened HierarchyForest
  import opened HierarchyReuse
  import opened HierarchyReplan
  import opened Indexing
  import opened IndexRuns
  import opened Transactions

  // ---------------------------------------------------------------- the invariant

  ghost predicate ClashFree(messages: seq<Message>) {
    forall i, j :: 0 <= i < j < |messages| ==> !Clashes(messages[i], messages[j])
  }

  ghost predicate SeqsWithin(messages: seq<Message>, highWater: nat) {
    forall m :: m in messages ==> 1 <= m.seqNo <= highWater
  }

  ghost predicate OneHistory(history: string, messages: seq<Message>) {
    forall m :: m in messages ==> m.history == history
  }

  ghost predicate Spanned(leaves: seq<Node>, q: nat) {
    exists i :: 0 <= i < |leaves| && leaves[i].lo <= q <= leaves[i].hi
  }

  ghost predicate StoredSeq(messages: seq<Message>, q: nat) {
    exists m :: m in messages && m.seqNo == q
  }

  ghost predicate SpanEnds(messages: seq<Message>, leaves: seq<Node>) {
    forall i :: 0 <= i < |leaves| ==> StoredSeq(messages, leaves[i].lo) && StoredSeq(messages, leaves[i].hi)
  }

  ghost predicate AllSpanned(messages: seq<Message>, leaves: seq<Node>, upto: nat) {
    forall m :: m in messages && m.seqNo <= upto ==> Spanned(leaves, m.seqNo)
  }

  /** The leaf spans are disjoint and ascending, begin and end at stored messages, and stop at the mark. */
  ghost predicate Framed(messages: seq<Message>, leaves: seq<Node>, upto: nat) {
    && Ordered(leaves, []) && SpanEnds(messages, leaves)
    && upto == (if leaves == [] then 0 else leaves[|leaves|-1].hi)
  }

  /**
   * The leaf spans partition, in order, exactly the stored messages numbered up to `upto`: the spans
   * are disjoint and ascending, begin and end at stored messages, stop at the mark, and cover every
   * stored message up to it.
   */
  ghost predicate Partitioned(messages: seq<Message>, leaves: seq<Node>, upto: nat) {
    Framed(messages, leaves, upto) && AllSpanned(messages, leaves, upto)
  }

  ghost predicate TreeOk(db: Db, m: nat) {
    && Settled(db.forest, m) && (forall id :: id in db.forest.nodes ==> id < db.nextNode)
    && Framed(db.messages, db.forest.leaves, db.committedSeq)
  }

  /** No stored message up to the index mark has been passed over. */
  ghost predicate Unbroken(db: Db) {
    AllSpanned(db.messages, db.forest.leaves, db.committedSeq)
  }

  ghost predicate RowsOk(db: Db) {
    && ClashFree(db.messages) && SeqsWithin(db.messages, db.highWater) && OneHistory(db.history, db.messages)
    && InStep(db.messages, db.tables)
  }

  /** Receipts cover disjoint ranges of stored sequence numbers. */
  ghost predicate ReceiptOk(messages: seq<Message>, r: Receipt) {
    && r.first.Some? == r.last.Some?
    && (r.first.Some? ==> r.first.value <= r.last.value)
    && forall q :: InReceipt(r, q) ==> StoredSeq(messages, q)
  }

  ghost predicate InReceipt(r: Receipt, q: nat) {
    r.first.Some? && r.last.Some? && r.first.value <= q <= r.last.value
  }

  ghost predicate ReceiptsStored(db: Db) {
    forall k :: k in db.receipts ==> ReceiptOk(db.messages, db.receipts[k])
  }

  ghost predicate ReceiptsDisjoint(receipts: Receipts) {
    forall k, l, q :: k in receipts && l in receipts && InReceipt(receipts[k], q) && InReceipt(receipts[l], q) ==>
        k == l
  }

  /** A receipt means something was stored: an empty store has none. */
  ghost predicate ReceiptsNeedRows(db: Db) {
    db.messages == [] ==> db.receipts == map[]
  }

  ghost predicate ReceiptsOk(db: Db) {
    ReceiptsStored(db) && ReceiptsDisjoint(db.receipts) && ReceiptsNeedRows(db)
  }

  ghost predicate DbOk(db: Db, m: nat) {
    RowsOk(db) && TreeOk(db, m) && ReceiptsOk(db) && db.historyRevision == db.searchRevision &&
    db.committedSeq <= db.highWater
  }

  /** A fresh store. */
  function NewDb(history: string): Db {
    Db(history, [], map[], Tables(map[], map[]), NoForest, 0, 0, 0, 0, 0, 0, 0)
  }

  lemma NewDbOk(history: string, m: nat)
    requires 2 <= m
    ensures DbOk(NewDb(history), m)
  {
    EmptyInStep();
    EmptySettled(m);
  }

  // ---------------------------------------------------------------- inserted rows

  lemma ClashFreeIds(messages: seq<Message>)
    requires ClashFree(messages)
    ensures NoDup(MessageIds(messages)) && NoDup(SeqNos(messages))
  {
    var ids, seqs := MessageIds(messages), SeqNos(messages);
    forall i, j | 0 <= i < j < |messages| ensures ids[i] != ids[j] && seqs[i] != seqs[j] {
      assert !Clashes(messages[i], messages[j]);
    }
  }

  ghost predicate ContentsOk(history: string, d: Contents) {
    ClashFree(d.messages) && OneHistory(history, d.messages) && InStep(d.messages, d.tables)
  }

  lemma InsertKeepsContents(history: string, d: Contents, m: Message)
    requires ContentsOk(history, d) && m.history == history && Insert(d, m).Some?
    ensures ContentsOk(history, Insert(d, m).value)
  {
    var more := d.messages + [m];
    forall i, j | 0 <= i < j < |more| ensures !Clashes(more[i], more[j]) {
      if j == |d.messages| { assert d.messages[i] in d.messages; }
    }
    ClashFreeIds(more);
    hide ClashFree, Clashes, InStep, NoDup, MessageIds, SeqNos;
    AddKeepsInStep(d.messages, d.tables, m);
    forall n | n in more ensures n.history == history {}
  }

  /** What the insertion loop has done after some messages: rows appended at consecutive numbers. */
  ghost predicate Appended(before: seq<Message>, after: seq<Message>, firstSeq: nat, nextSeq: nat) {
    && firstSeq <= nextSeq && before <= after && |after| - |before| == nextSeq - firstSeq
    && forall k :: |before| <= k < |after| ==> after[k].seqNo == firstSeq + (k - |before|)
  }

  lemma {:induction false} InsertFromFacts(history: string, b: Batch, i: nat, p: Progress, before: seq<Message>,
                                           firstSeq: nat)
    requires i <= |b.messages| == |b.stamps| && ContentsOk(history, p.draft)
    requires Appended(before, p.draft.messages, firstSeq, p.nextSeq)
    requires p.skipped + (p.nextSeq - firstSeq) == i
    ensures InsertFrom(history, b, i, p).Some? ==>
              var r := InsertFrom(history, b, i, p).value;
              && ContentsOk(history, r.draft) && Appended(before, r.draft.messages, firstSeq, r.nextSeq)
              && r.skipped + (r.nextSeq - firstSeq) == |b.messages|
    decreases |b.messages| - i
  {
    hide ContentsOk;
    if i < |b.messages| {
      if AlreadyStored(p.draft.messages, b.source, b.messages[i]) {
        InsertFromFacts(history, b, i + 1, p.(skipped := p.skipped + 1), before, firstSeq);
      } else {
        var m := RowFor(history, b, i, p.nextSeq);
        var d := Insert(p.draft, m);
        if d.Some? {
          InsertKeepsContents(history, p.draft, m);
          AppendOne(before, p.draft.messages, m, firstSeq, p.nextSeq);
          InsertFromFacts(history, b, i + 1, Progress(d.value, p.nextSeq + 1, p.skipped), before, firstSeq);
        }
      }
    }
  }

  lemma AppendOne(before: seq<Message>, now: seq<Message>, m: Message, firstSeq: nat, nextSeq: nat)
    requires Appended(before, now, firstSeq, nextSeq) && m.seqNo == nextSeq
    ensures Appended(before, now + [m], firstSeq, nextSeq + 1)
  {}

  // ---------------------------------------------------------------- the tree is untouched by later rows

  lemma StoredMore(before: seq<Message>, after: seq<Message>, q: nat)
    requires before <= after && StoredSeq(before, q)
    ensures StoredSeq(after, q)
  {
    var m :| m in before && m.seqNo == q;
    assert m in after;
  }

  lemma FrameMore(before: seq<Message>, after: seq<Message>, leaves: seq<Node>, upto: nat)
    requires Framed(before, leaves, upto) && before <= after
    ensures Framed(after, leaves, upto)
  {
    hide Ordered;
    EndsMore(before, after, leaves);
  }

  lemma EndsMore(before: seq<Message>, after: seq<Message>, leaves: seq<Node>)
    requires SpanEnds(before, leaves) && before <= after
    ensures SpanEnds(after, leaves)
  {
    forall i | 0 <= i < |leaves| ensures StoredSeq(after, leaves[i].lo) && StoredSeq(after, leaves[i].hi) {
      StoredMore(before, after, leaves[i].lo);
      StoredMore(before, after, leaves[i].hi);
    }
  }

  /** Rows numbered past the mark leave the covering as it was, whole or not. */
  lemma SpannedIgnoresLater(before: seq<Message>, after: seq<Message>, leaves: seq<Node>, upto: nat)
    requires before <= after && forall m :: m in after && m !in before ==> m.seqNo > upto
    ensures AllSpanned(after, leaves, upto) <==> AllSpanned(before, leaves, upto)
  {
    hide Spanned;
    assert forall m :: m in before ==> m in after;
  }

  // ---------------------------------------------------------------- ingest

  /** Only rows, receipts and the history revisions may differ, and rows only grow past the mark. */
  ghost predicate Wrote(db: Db, after: Db) {
    && after.history == db.history && after.forest == db.forest && after.indexRevision == db.indexRevision
    && after.generation == db.generation && after.committedSeq == db.committedSeq && after.nextNode == db.nextNode
    && after.historyRevision == db.historyRevision + 1 && after.searchRevision == db.searchRevision + 1
    && db.highWater <= after.highWater && db.messages <= after.messages
  }

  /** The receipt accounts for every message of the batch, and names exactly the numbers it was given. */
  ghost predicate Accounts(db: Db, after: Db, b: Batch, r: Receipt) {
    && Appended(db.messages, after.messages, db.highWater + 1, after.highWater + 1)
    && r.skipped + (after.highWater - db.highWater) == |b.messages|
    && r.digest == RequestDigest(b.messages, b.source, b.session)
    && (if after.highWater > db.highWater then r.first == Some(db.highWater + 1) && r.last == Some(after.highWater)
        else r.first == None && r.last == None)
    && after.receipts == db.receipts[(b.source, b.key) := r]
  }

  /** What an ingest call does: commit everything with a full account, or change nothing at all. */
  lemma IngestEffect(db: Db, b: Batch)
    requires RowsOk(db) && |b.messages| == |b.stamps|
    ensures var r := Ingest(db, b);
            && (!r.reply.Committed? ==> r.db == db)
            && (r.reply.Committed? ==>
                  && Wrote(db, r.db) && Accounts(db, r.db, b, r.reply.receipt)
                  && (b.source, b.key) !in db.receipts && b.messages != []
                  && ContentsOk(db.history, Contents(r.db.messages, r.db.tables)))
  {
    var r := Ingest(db, b);
    if r.reply.Committed? {
      InsertFromFacts(db.history, b, 0, Progress(Contents(db.messages, db.tables), db.highWater + 1, 0), db.messages,
                      db.highWater + 1);
      hide ContentsOk, ClashFree, InStep, SeqsWithin, OneHistory;
    }
  }

  lemma AppendedSeqs(before: seq<Message>, after: seq<Message>, firstSeq: nat, nextSeq: nat)
    requires Appended(before, after, firstSeq, nextSeq)
    ensures forall m :: m in after && m !in before ==> firstSeq <= m.seqNo < nextSeq
    ensures forall q :: firstSeq <= q < nextSeq ==> StoredSeq(after, q)
  {
    assert forall j :: 0 <= j < |before| ==> after[j] in before;
    forall m | m in after && m !in before ensures firstSeq <= m.seqNo < nextSeq {
      var k :| 0 <= k < |after| && after[k] == m;
    }
    forall q | firstSeq <= q < nextSeq ensures StoredSeq(after, q) {
      var k := |before| + (q - firstSeq);
      assert after[k].seqNo == q && after[k] in after;
    }
  }

  lemma SeqsGrow(before: seq<Message>, after: seq<Message>, highWater: nat, next: nat)
    requires SeqsWithin(before, highWater) && Appended(before, after, highWater + 1, next + 1)
    ensures SeqsWithin(after, next)
  {
    AppendedSeqs(before, after, highWater + 1, next + 1);
    forall m | m in after ensures 1 <= m.seqNo <= next {
      if m in before {}
    }
  }

  lemma TreeKept(db: Db, after: Db, m: nat)
    requires TreeOk(db, m) && Wrote(db, after)
    ensures TreeOk(after, m)
  {
    hide Settled, Framed;
    FrameMore(db.messages, after.messages, db.forest.leaves, db.committedSeq);
  }

  /** Messages numbered after every earlier one never fall behind the index mark. */
  lemma UnbrokenKept(db: Db, after: Db)
    requires Wrote(db, after) && db.committedSeq <= db.highWater
    requires Appended(db.messages, after.messages, db.highWater + 1, after.highWater + 1)
    ensures Unbroken(after) <==> Unbroken(db)
  {
    AppendedSeqs(db.messages, after.messages, db.highWater + 1, after.highWater + 1);
    hide AllSpanned, Appended;
    SpannedIgnoresLater(db.messages, after.messages, db.forest.leaves, db.committedSeq);
  }

  lemma ReceiptMore(before: seq<Message>, after: seq<Message>, r: Receipt)
    requires before <= after && ReceiptOk(before, r)
    ensures ReceiptOk(after, r)
  {
    forall q | InReceipt(r, q) ensures StoredSeq(after, q) {
      StoredMore(before, after, q);
    }
  }

  lemma ReceiptsGrow(db: Db, after: Db, b: Batch, r: Receipt)
    requires ReceiptsOk(db) && SeqsWithin(db.messages, db.highWater) && Wrote(db, after) && Accounts(db, after, b, r)
    requires (b.source, b.key) !in db.receipts
    ensures ReceiptsStored(after) && ReceiptsDisjoint(after.receipts)
  {
    AppendedSeqs(db.messages, after.messages, db.highWater + 1, after.highWater + 1);
    forall k | k in after.receipts ensures ReceiptOk(after.messages, after.receipts[k]) {
      if k in db.receipts && k != (b.source, b.key) {
        ReceiptMore(db.messages, after.messages, db.receipts[k]);
      }
    }
    forall k, q: nat | k in db.receipts && InReceipt(db.receipts[k], q) ensures q <= db.highWater {
      assert ReceiptOk(db.messages, db.receipts[k]);
      assert StoredSeq(db.messages, q);
    }
    hide ReceiptsStored, StoredSeq, SeqsWithin, Appended;
    forall k, l, q | k in after.receipts && l in after.receipts && InReceipt(after.receipts[k], q)
      && InReceipt(after.receipts[l], q)
      ensures k == l
    {
    }
  }

  /** The first message of a batch is never skipped in an empty store. */
  lemma FirstIsInserted(db: Db, b: Batch)
    requires RowsOk(db) && |b.messages| == |b.stamps| && Ingest(db, b).reply.Committed?
    ensures Ingest(db, b).db.messages != []
  {
    IngestEffect(db, b);
    if db.messages == [] {
      var p := Progress(Contents([], db.tables), db.highWater + 1, 0);
      var m := RowFor(db.history, b, 0, db.highWater + 1);
      var d := Insert(p.draft, m);
      assert d.Some?;
      InsertKeepsContents(db.history, p.draft, m);
      AppendOne([], [], m, db.highWater + 1, db.highWater + 1);
      InsertFromFacts(db.history, b, 1, Progress(d.value, db.highWater + 2, 0), [], db.highWater + 1);
      assert InsertFrom(db.history, b, 0, p) == InsertFrom(db.history, b, 1, Progress(d.value, db.highWater + 2, 0));
      InsertOnlyAppends(db.history, b, 1, Progress(d.value, db.highWater + 2, 0));
    }
  }

  lemma {:induction false} InsertOnlyAppends(history: string, b: Batch, i: nat, p: Progress)
    requires i <= |b.messages| == |b.stamps| && InsertFrom(history, b, i, p).Some?
    ensures p.draft.messages <= InsertFrom(history, b, i, p).value.draft.messages
    decreases |b.messages| - i
  {
    if i < |b.messages| {
      if AlreadyStored(p.draft.messages, b.source, b.messages[i]) {
        InsertOnlyAppends(history, b, i + 1, p.(skipped := p.skipped + 1));
      } else {
        var d := Insert(p.draft, RowFor(history, b, i, p.nextSeq));
        InsertOnlyAppends(history, b, i + 1, Progress(d.value, p.nextSeq + 1, p.skipped));
      }
    }
  }

  lemma IngestKeepsOk(db: Db, b: Batch, m: nat)
    requires DbOk(db, m) && |b.messages| == |b.stamps|
    ensures DbOk(Ingest(db, b).db, m)
    ensures Unbroken(Ingest(db, b).db) <==> Unbroken(db)
  {
    var r := Ingest(db, b);
    IngestEffect(db, b);
    if r.reply.Committed? {
      FirstIsInserted(db, b);
      hide Ingest, ClashFree, InStep, Appended, TreeOk, SeqsWithin, OneHistory, ReceiptsStored, ReceiptsDisjoint,
           Unbroken;
      SeqsGrow(db.messages, r.db.messages, db.highWater, r.db.highWater);
      TreeKept(db, r.db, m);
      UnbrokenKept(db, r.db);
      ReceiptsGrow(db, r.db, b, r.reply.receipt);
    }
  }

  // ---------------------------------------------------------------- clear

  lemma ClearKeepsOk(db: Db, m: nat)
    requires DbOk(db, m) && 2 <= m
    ensures Clear(db).Ok? && DbOk(Clear(db).value, m) && Unbroken(Clear(db).value)
    ensures Clear(db).value.highWater == db.highWater
  {
    EmptyInStep();
    EmptySettled(m);
  }

  // ---------------------------------------------------------------- import

  /** Rows appended in file order under the destination's history. */
  ghost predicate Copied(history: string, records: seq<Message>, before: seq<Message>, after: seq<Message>) {
    && |after| == |before| + |records| && before <= after
    && forall k :: 0 <= k < |records| ==> after[|before| + k] == records[k].(history := history)
  }

  lemma {:induction false} InsertRecordsFacts(history: string, records: seq<Message>, d: Contents)
    requires ContentsOk(history, d)
    ensures InsertRecords(history, records, d).Some? ==>
              && ContentsOk(history, InsertRecords(history, records, d).value)
              && Copied(history, records, d.messages, InsertRecords(history, records, d).value.messages)
  {
    hide ContentsOk;
    if records != [] {
      var m := records[0].(history := history);
      var next := Insert(d, m);
      if next.Some? {
        InsertKeepsContents(history, d, m);
        InsertRecordsFacts(history, records[1..], next.value);
        if InsertRecords(history, records, d).Some? {
          CopyOne(history, records, d.messages, InsertRecords(history, records, d).value.messages);
        }
      }
    }
  }

  lemma CopyOne(history: string, records: seq<Message>, before: seq<Message>, after: seq<Message>)
    requires records != [] && Copied(history, records[1..], before + [records[0].(history := history)], after)
    ensures Copied(history, records, before, after)
  {
    var mid := before + [records[0].(history := history)];
    assert mid <= after;
    forall k | 0 <= k < |records| ensures after[|before| + k] == records[k].(history := history) {
      if k > 0 {
        assert after[|mid| + (k - 1)] == records[1..][k - 1].(history := history);
      } else {
        assert mid[|before|] == after[|before|];
      }
    }
  }

  ghost predicate Numbered(records: seq<Message>) {
    forall r :: r in records ==> r.seqNo >= 1
  }

  lemma {:induction false} MaxSeqFacts(records: seq<Message>, floor: nat)
    ensures MaxSeq(records, floor) >= floor
    ensures forall r :: r in records ==> r.seqNo <= MaxSeq(records, floor)
    ensures MaxSeq(records, floor) == floor || exists r :: r in records && r.seqNo == MaxSeq(records, floor)
  {
    if records != [] {
      MaxSeqFacts(records[1..], if records[0].seqNo > floor then records[0].seqNo else floor);
      assert records == [records[0]] + records[1..];
      assert records[0] in records;
    }
  }

  lemma CopiedSeqs(history: string, records: seq<Message>, before: seq<Message>, after: seq<Message>, highWater: nat)
    requires Copied(history, records, before, after) && SeqsWithin(before, highWater) && Numbered(records)
    ensures SeqsWithin(after, MaxSeq(records, highWater))
    ensures forall m :: m in after && m !in before ==> exists r :: r in records && r.seqNo == m.seqNo
  {
    MaxSeqFacts(records, highWater);
    forall m | m in after ensures m in before || exists r :: r in records && r.seqNo == m.seqNo {
      var k :| 0 <= k < |after| && after[k] == m;
      if k < |before| {
        assert before[k] == m;
      } else {
        assert after[|before| + (k - |before|)] == records[k - |before|].(history := history);
        assert records[k - |before|] in records;
      }
    }
  }

  /** What a committed import batch does. */
  lemma ImportBatchEffect(db: Db, records: seq<Message>, expected: Option<nat>)
    requires RowsOk(db) && Numbered(records)
    ensures var r := ImportBatch(db, records, expected);
            r.Ok? && records != [] ==>
              && Wrote(db, r.value) && Copied(db.history, records, db.messages, r.value.messages)
              && RowsOk(r.value) && r.value.receipts == db.receipts
              && r.value.highWater == MaxSeq(records, db.highWater)
              && Sourced(db.messages, records, r.value.messages)
    ensures ImportBatch(db, records, expected) == Ok(db) || (ImportBatch(db, records, expected).Ok? ==> records != [])
  {
    var r := ImportBatch(db, records, expected);
    if r.Ok? && records != [] {
      InsertRecordsFacts(db.history, records, Contents(db.messages, db.tables));
      CopiedSeqs(db.history, records, db.messages, r.value.messages, db.highWater);
      MaxSeqFacts(records, db.highWater);
      hide ClashFree, InStep, Copied;
    }
  }

  /** A record past the mark, or inside a span already published, does not break the partition. */
  ghost predicate Harmless(db: Db, r: Message) {
    r.seqNo > db.committedSeq || Spanned(db.forest.leaves, r.seqNo)
  }

  ghost predicate AllHarmless(db: Db, records: seq<Message>) {
    forall r :: r in records ==> Harmless(db, r)
  }

  /** Every new row is one of the records, renumbered to the destination's history. */
  ghost predicate Sourced(before: seq<Message>, records: seq<Message>, after: seq<Message>) {
    forall m :: m in after && m !in before ==> exists r :: r in records && r.seqNo == m.seqNo
  }

  lemma PartitionNeedsHarmless(db: Db, records: seq<Message>, after: seq<Message>)
    requires Copied(db.history, records, db.messages, after) && AllSpanned(after, db.forest.leaves, db.committedSeq)
    ensures AllHarmless(db, records)
  {
    forall r | r in records ensures Harmless(db, r) {
      RecordStored(db.history, records, db.messages, after, r);
      hide Copied, Spanned;
      var copy := r.(history := db.history);
      assert copy in after;
    }
  }

  lemma HarmlessKeepsSpans(db: Db, records: seq<Message>, after: seq<Message>)
    requires AllSpanned(db.messages, db.forest.leaves, db.committedSeq) && db.messages <= after
    requires Sourced(db.messages, records, after) && AllHarmless(db, records)
    ensures AllSpanned(after, db.forest.leaves, db.committedSeq)
  {
    hide Spanned;
    forall m | m in after && m.seqNo <= db.committedSeq ensures Spanned(db.forest.leaves, m.seqNo) {
      if m !in db.messages {
        var r :| r in records && r.seqNo == m.seqNo;
        assert Harmless(db, r);
      }
    }
  }

  lemma SpansNeedLess(before: seq<Message>, after: seq<Message>, leaves: seq<Node>, upto: nat)
    requires AllSpanned(after, leaves, upto) && before <= after
    ensures AllSpanned(before, leaves, upto)
  {
    hide Spanned;
    assert forall m :: m in before ==> m in after;
  }

  /**
   * After a single import transaction the tree covers the messages up to its mark if and only if it did
   * before and every record is numbered past the mark or inside a published span.
   */
  lemma ImportBatchPartition(db: Db, records: seq<Message>, expected: Option<nat>, m: nat)
    requires DbOk(db, m) && Numbered(records) && ImportBatch(db, records, expected).Ok?
    ensures var after := ImportBatch(db, records, expected).value;
            Unbroken(after) <==> Unbroken(db) && AllHarmless(db, records)
  {
    hide *;
    DbParts(db, m);
    var after := ImportBatch(db, records, expected).value;
    ImportBatchEffect(db, records, expected);
    UnbrokenIs(db);
    UnbrokenIs(after);
    if records != [] {
      WroteParts(db, after);
      if AllSpanned(after.messages, db.forest.leaves, db.committedSeq) {
        PartitionNeedsHarmless(db, records, after.messages);
        SpansNeedLess(db.messages, after.messages, db.forest.leaves, db.committedSeq);
      }
      if Unbroken(db) && AllHarmless(db, records) {
        HarmlessKeepsSpans(db, records, after.messages);
      }
    } else {
      EmptyBatch(db, expected);
      NothingHarmful(db);
    }
  }

  lemma UnbrokenIs(db: Db)
    ensures Unbroken(db) <==> AllSpanned(db.messages, db.forest.leaves, db.committedSeq)
  {
    hide AllSpanned;
  }

  lemma EmptyBatch(db: Db, expected: Option<nat>)
    requires ImportBatch(db, [], expected).Ok?
    ensures ImportBatch(db, [], expected).value == db
  {}

  lemma NothingHarmful(db: Db)
    ensures AllHarmless(db, [])
  {}

  lemma DbParts(db: Db, m: nat)
    requires DbOk(db, m)
    ensures RowsOk(db) && TreeOk(db, m) && ReceiptsOk(db) && db.historyRevision == db.searchRevision
    ensures db.committedSeq <= db.highWater && Framed(db.messages, db.forest.leaves, db.committedSeq)
    ensures Settled(db.forest, m) && ReceiptsStored(db) && SeqsWithin(db.messages, db.highWater)
    ensures forall id :: id in db.forest.nodes ==> id < db.nextNode
  {
    hide Settled, Framed, ClashFree, InStep, ReceiptsStored, SeqsWithin, OneHistory;
  }

  lemma WroteParts(db: Db, after: Db)
    requires Wrote(db, after)
    ensures after.history == db.history && after.forest == db.forest && after.committedSeq == db.committedSeq
    ensures db.messages <= after.messages && db.highWater <= after.highWater && after.nextNode == db.nextNode
    ensures after.historyRevision == db.historyRevision + 1 ==
              after.searchRevision - db.searchRevision + db.historyRevision
  {}

  lemma RecordStored(history: string, records: seq<Message>, before: seq<Message>, after: seq<Message>, r: Message)
    requires Copied(history, records, before, after) && r in records
    ensures r.(history := history) in after
  {
    var k :| 0 <= k < |records| && records[k] == r;
    assert after[|before| + k] == records[k].(history := history);
  }

  // ---------------------------------------------------------------- a whole import

  /** No index yet and no receipts: where every batch of one import finds the store. */
  ghost predicate Unindexed(db: Db) {
    db.forest.leaves == [] && db.receipts == map[]
  }

  /** A committed batch keeps everything but, when it is not harmless, the covering. */
  lemma ImportBatchKeepsOk(db: Db, records: seq<Message>, expected: Option<nat>, m: nat)
    requires DbOk(db, m) && Numbered(records) && ImportBatch(db, records, expected).Ok?
    ensures DbOk(ImportBatch(db, records, expected).value, m)
    ensures Unindexed(db) ==> Unindexed(ImportBatch(db, records, expected).value)
  {
    var after := ImportBatch(db, records, expected).value;
    hide ImportBatch, RowsOk, TreeOk, ReceiptsStored, ReceiptsDisjoint, Copied, Sourced;
    ImportBatchEffect(db, records, expected);
    if records != [] {
      ReceiptsMore(db, after);
      TreeKept(db, after, m);
      CopiedNonEmpty(db.history, records, db.messages, after.messages);
    }
  }

  lemma CopiedNonEmpty(history: string, records: seq<Message>, before: seq<Message>, after: seq<Message>)
    requires Copied(history, records, before, after) && records != []
    ensures after != []
  {}

  lemma ReceiptsMore(db: Db, after: Db)
    requires ReceiptsStored(db) && after.receipts == db.receipts && db.messages <= after.messages
    ensures ReceiptsStored(after)
  {
    hide ReceiptOk;
    forall k | k in after.receipts ensures ReceiptOk(after.messages, after.receipts[k]) {
      ReceiptMore(db.messages, after.messages, db.receipts[k]);
    }
  }

  /** Without a tree there is no mark to fall behind. */
  lemma UnindexedIsUnbroken(db: Db, m: nat)
    requires DbOk(db, m) && db.forest.leaves == []
    ensures Unbroken(db) && db.committedSeq == 0
  {
    hide Settled, ClashFree, InStep, ReceiptsOk, OneHistory;
  }

  lemma {:induction false} ImportFromKeepsOk(db: Db, records: seq<Message>, expected: Option<nat>, count: nat, m: nat)
    requires DbOk(db, m) && Unindexed(db) && Numbered(records)
    ensures DbOk(ImportFrom(db, records, expected, count).db, m)
            && Unindexed(ImportFrom(db, records, expected, count).db)
    decreases |records|
  {
    hide DbOk, ImportBatch, Unindexed;
    var batch := if |records| <= IMPORT_BATCH_SIZE then records else records[..IMPORT_BATCH_SIZE];
    var step := ImportBatch(db, batch, expected);
    if step.Ok? {
      ImportBatchKeepsOk(db, batch, expected, m);
      if |records| > IMPORT_BATCH_SIZE {
        ImportFromKeepsOk(step.value, records[IMPORT_BATCH_SIZE..], Some(db.historyRevision + 1), count + |batch|, m);
      }
    }
  }

  /** An empty store has no tree and no receipts. */
  lemma EmptyStore(db: Db, m: nat)
    requires DbOk(db, m) && db.messages == []
    ensures Unindexed(db) && db.committedSeq == 0
  {
    hide RowsOk, Settled;
    assert forall q: nat :: !StoredSeq(db.messages, q);
  }

  /** A whole import, wherever it stops, keeps every invariant, whatever the order of its records. */
  lemma ImportKeepsOk(db: Db, records: seq<Message>, m: nat)
    requires DbOk(db, m) && Numbered(records)
    ensures DbOk(Import(db, records).db, m)
    ensures Unbroken(Import(db, records).db) <==> Unbroken(db)
  {
    hide DbOk, ImportFrom, Unbroken;
    if db.messages == [] {
      EmptyStore(db, m);
      UnindexedIsUnbroken(db, m);
      ImportFromKeepsOk(db, records, None, 0, m);
      UnindexedIsUnbroken(Import(db, records).db, m);
    } else {
      ImportRefused(db, records);
    }
  }

  lemma ImportRefused(db: Db, records: seq<Message>)
    requires db.messages != []
    ensures Import(db, records).db == db && Import(db, records).result.Err?
  {}
}
