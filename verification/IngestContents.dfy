/**
 * What a committed batch leaves in the store: which of its messages become rows, in which order, and when
 * none of its content is lost (packages/python/src/cci/ingest.py).
 */
module IngestContents {
  import opened Wrappers
  import opened Sequences
  import opened Records
  import opened SearchIndex
  import opened SearchMaintenance
  import opened Transactions
  import opened StoreInvariants
  import Projections

  /** A stored message of this source has the external identifier. */
  predicate HasExternal(messages: seq<Message>, source: string, id: string) {
    exists m :: m in messages && m.source == source && m.externalId == Some(id)
  }

  /** The message's external identifier is stored already, or an earlier message of the batch has it. */
  predicate Repeats(before: seq<Message>, b: Batch, j: nat)
    requires j < |b.messages|
  {
    var id := b.messages[j].externalId;
    id.Some? && (HasExternal(before, b.source, id.value) || exists k :: 0 <= k < j && b.messages[k].externalId == id)
  }

  /** The positions, below `n`, of the messages that repeat nothing. */
  function Firsts(before: seq<Message>, b: Batch, n: nat): (r: seq<nat>)
    requires n <= |b.messages|
    ensures forall k :: 0 <= k < |r| ==> r[k] < n
    ensures forall j: nat :: j in r <==> j < n && !Repeats(before, b, j)
  {
    if n == 0 then []
    else Firsts(before, b, n - 1) + (if Repeats(before, b, n - 1) then [] else [n - 1])
  }

  /** The rows of the messages at these positions, numbered from `firstSeq`. */
  function RowsFor(history: string, b: Batch, at: seq<nat>, firstSeq: nat): (r: seq<Message>)
    requires |b.messages| == |b.stamps| && forall k :: 0 <= k < |at| ==> at[k] < |b.messages|
    ensures |r| == |at|
  {
    seq(|at|, k requires 0 <= k < |at| => RowFor(history, b, at[k], firstSeq + k))
  }

  lemma {:induction false} FindExternalFacts(messages: seq<Message>, source: string, id: string)
    ensures var found := FindExternal(messages, source, id);
            && (found.Some? <==> HasExternal(messages, source, id))
            && (found.Some? ==>
                  found.value in messages && found.value.source == source && found.value.externalId == Some(id))
  {
    if messages != [] {
      var init, last := messages[..|messages|-1], messages[|messages|-1];
      FindExternalFacts(init, source, id);
      assert messages == init + [last];
    }
  }

  /** Whatever an earlier message repeats or brings, its identifier is among the rows stored so far. */
  lemma {:induction false} EarlierIsStored(history: string, before: seq<Message>, b: Batch, i: nat, k: nat,
                                           firstSeq: nat)
    requires k < i <= |b.messages| == |b.stamps| && b.messages[k].externalId.Some?
    ensures HasExternal(before + RowsFor(history, b, Firsts(before, b, i), firstSeq), b.source,
                        b.messages[k].externalId.value)
    decreases k
  {
    var id, firsts := b.messages[k].externalId.value, Firsts(before, b, i);
    var rows := RowsFor(history, b, firsts, firstSeq);
    if !Repeats(before, b, k) {
      assert k in firsts;
      var n :| 0 <= n < |firsts| && firsts[n] == k;
      assert rows[n] in before + rows && rows[n].externalId == Some(id);
    } else if HasExternal(before, b.source, id) {
      var m :| m in before && m.source == b.source && m.externalId == Some(id);
      assert m in before + rows;
    } else {
      var l :| 0 <= l < k && b.messages[l].externalId == Some(id);
      EarlierIsStored(history, before, b, i, l, firstSeq);
    }
  }

  lemma HasInEither(before: seq<Message>, rows: seq<Message>, source: string, id: string)
    ensures HasExternal(before + rows, source, id) <==> HasExternal(before, source, id) || HasExternal(rows, source, id)
  {
    forall m ensures m in before + rows <==> m in before || m in rows {}
  }

  lemma HasInRows(history: string, b: Batch, at: seq<nat>, firstSeq: nat, id: string) returns (k: nat)
    requires |b.messages| == |b.stamps| && forall n :: 0 <= n < |at| ==> at[n] < |b.messages|
    requires HasExternal(RowsFor(history, b, at, firstSeq), b.source, id)
    ensures k in at && b.messages[k].externalId == Some(id)
  {
    var rows := RowsFor(history, b, at, firstSeq);
    var m :| m in rows && m.source == b.source && m.externalId == Some(id);
    var n :| 0 <= n < |rows| && rows[n] == m;
    k := at[n];
  }

  /** The loop's look-up finds exactly the repeated identifiers. */
  lemma StoredIsRepeated(history: string, before: seq<Message>, b: Batch, i: nat, firstSeq: nat)
    requires i < |b.messages| == |b.stamps|
    ensures AlreadyStored(before + RowsFor(history, b, Firsts(before, b, i), firstSeq), b.source, b.messages[i]) <==>
            Repeats(before, b, i)
  {
    var rows := RowsFor(history, b, Firsts(before, b, i), firstSeq);
    var id := b.messages[i].externalId;
    if id.Some? {
      FindExternalFacts(before + rows, b.source, id.value);
      HasInEither(before, rows, b.source, id.value);
      hide HasExternal, FindExternal, RowsFor;
      if HasExternal(rows, b.source, id.value) {
        var k := HasInRows(history, b, Firsts(before, b, i), firstSeq, id.value);
        assert k < i;
      }
      if k :| 0 <= k < i && b.messages[k].externalId == id {
        EarlierIsStored(history, before, b, i, k, firstSeq);
      }
    }
  }

  lemma RowsForOneMore(history: string, before: seq<Message>, b: Batch, i: nat, firstSeq: nat)
    requires i < |b.messages| == |b.stamps|
    ensures var firsts, more := Firsts(before, b, i), Firsts(before, b, i + 1);
            if Repeats(before, b, i) then more == firsts
            else
              && |more| == |firsts| + 1
              && RowsFor(history, b, more, firstSeq) ==
                 RowsFor(history, b, firsts, firstSeq) + [RowFor(history, b, i, firstSeq + |firsts|)]
  {
    hide RowFor, Repeats;
  }

  lemma {:induction false} InsertFromStores(history: string, b: Batch, i: nat, p: Progress, before: seq<Message>,
                                            firstSeq: nat)
    requires i <= |b.messages| == |b.stamps| && p.nextSeq == firstSeq + |Firsts(before, b, i)|
    requires p.draft.messages == before + RowsFor(history, b, Firsts(before, b, i), firstSeq)
    ensures InsertFrom(history, b, i, p).Some? ==>
              InsertFrom(history, b, i, p).value.draft.messages ==
                before + RowsFor(history, b, Firsts(before, b, |b.messages|), firstSeq)
    decreases |b.messages| - i
  {
    hide *;
    InsertFromCases(history, b, i, p);
    if i < |b.messages| {
      StoredIsRepeated(history, before, b, i, firstSeq);
      RowsForOneMore(history, before, b, i, firstSeq);
      if Repeats(before, b, i) {
        InsertFromStores(history, b, i + 1, p.(skipped := p.skipped + 1), before, firstSeq);
      } else {
        var row := RowFor(history, b, i, p.nextSeq);
        if Insert(p.draft, row).Some? {
          var rows := RowsFor(history, b, Firsts(before, b, i), firstSeq);
          assert before + rows + [row] == before + (rows + [row]);
          InsertFromStores(history, b, i + 1, Progress(Insert(p.draft, row).value, p.nextSeq + 1, p.skipped), before,
                           firstSeq);
        }
      }
    }
  }

  lemma InsertFromCases(history: string, b: Batch, i: nat, p: Progress)
    requires i <= |b.messages| == |b.stamps|
    ensures i == |b.messages| ==> InsertFrom(history, b, i, p) == Some(p)
    ensures i < |b.messages| && AlreadyStored(p.draft.messages, b.source, b.messages[i]) ==>
              InsertFrom(history, b, i, p) == InsertFrom(history, b, i + 1, p.(skipped := p.skipped + 1))
    ensures i < |b.messages| && !AlreadyStored(p.draft.messages, b.source, b.messages[i]) ==>
              var row := RowFor(history, b, i, p.nextSeq);
              var d := Insert(p.draft, row);
              && (d.Some? ==> d.value.messages == p.draft.messages + [row])
              && InsertFrom(history, b, i, p) ==
                 if d.None? then None
                 else InsertFrom(history, b, i + 1, Progress(d.value, p.nextSeq + 1, p.skipped))
  {
    hide AlreadyStored, RowFor, Violates, AddRow;
  }

  /** The payload says what the message says. */
  predicate SaysTheSame(p: Payload, m: InputMessage) {
    && p.role == m.role && p.content == m.content && p.metadata == m.metadata
    && p.toolCalls == m.toolCalls && p.toolCallId == m.toolCallId
  }

  /** The row holds everything there is to know of message `i`: content, text, identity, number and stamp. */
  ghost predicate TellsAll(m: Message, db: Db, b: Batch, i: nat, seqNo: nat)
    requires i < |b.messages| == |b.stamps|
  {
    var x := b.messages[i];
    && m.id == b.stamps[i].id && m.created == b.stamps[i].created && m.seqNo == seqNo && m.history == db.history
    && m.source == b.source && m.externalId == x.externalId && m.session == b.session
    && SaysTheSame(m.payload, x) && m.digest.payload == m.payload && Projections.Shows(m.text, x.content)
    && (if x.externalId.None? then m.key == Some(b.key) && m.position == Some(i)
        else m.key == None && m.position == None)
  }

  /** The rows of the batch follow the old ones: one for each message that repeats nothing, in batch order. */
  ghost predicate Adds(db: Db, b: Batch, after: seq<Message>)
    requires |b.messages| == |b.stamps|
  {
    var firsts := Firsts(db.messages, b, |b.messages|);
    && |after| == |db.messages| + |firsts| && db.messages <= after
    && (forall k, l :: 0 <= k < l < |firsts| ==> firsts[k] < firsts[l])
    && (forall k :: 0 <= k < |firsts| ==>
          TellsAll(after[|db.messages| + k], db, b, firsts[k], db.highWater + 1 + k))
  }

  lemma {:induction false} FirstsRise(before: seq<Message>, b: Batch, n: nat)
    requires n <= |b.messages|
    ensures forall k, l :: 0 <= k < l < |Firsts(before, b, n)| ==> Firsts(before, b, n)[k] < Firsts(before, b, n)[l]
  {
    hide Repeats;
    if n > 0 { FirstsRise(before, b, n - 1); }
  }

  /** A committed batch adds one row for each message that repeats nothing, in batch order, and no other row. */
  lemma IngestStores(db: Db, b: Batch)
    requires |b.messages| == |b.stamps| && Ingest(db, b).reply.Committed?
    ensures Adds(db, b, Ingest(db, b).db.messages)
    ensures Ingest(db, b).db.messages ==
            db.messages + RowsFor(db.history, b, Firsts(db.messages, b, |b.messages|), db.highWater + 1)
  {
    InsertFromStores(db.history, b, 0, Progress(Contents(db.messages, db.tables), db.highWater + 1, 0), db.messages,
                     db.highWater + 1);
    CommittedMessages(db, b);
    hide *;
    var firsts := Firsts(db.messages, b, |b.messages|);
    RowsTell(db, b, firsts);
    FirstsRise(db.messages, b, |b.messages|);
    AddsWith(db, b, RowsFor(db.history, b, firsts, db.highWater + 1));
  }

  lemma CommittedMessages(db: Db, b: Batch)
    requires |b.messages| == |b.stamps| && Ingest(db, b).reply.Committed?
    ensures var done := InsertFrom(db.history, b, 0, Progress(Contents(db.messages, db.tables), db.highWater + 1, 0));
            done.Some? && Ingest(db, b).db.messages == done.value.draft.messages
  {
    hide InsertFrom, Conflicts, RequestDigest;
  }

  lemma AddsWith(db: Db, b: Batch, rows: seq<Message>)
    requires |b.messages| == |b.stamps| && |rows| == |Firsts(db.messages, b, |b.messages|)|
    requires var firsts := Firsts(db.messages, b, |b.messages|);
             && (forall k, l :: 0 <= k < l < |firsts| ==> firsts[k] < firsts[l])
             && (forall k :: 0 <= k < |rows| ==> TellsAll(rows[k], db, b, firsts[k], db.highWater + 1 + k))
    ensures Adds(db, b, db.messages + rows)
  {
    hide TellsAll, Firsts;
  }

  lemma RowsTell(db: Db, b: Batch, at: seq<nat>)
    requires |b.messages| == |b.stamps| && forall k :: 0 <= k < |at| ==> at[k] < |b.messages|
    ensures forall k :: 0 <= k < |at| ==>
              TellsAll(RowsFor(db.history, b, at, db.highWater + 1)[k], db, b, at[k], db.highWater + 1 + k)
  {
    forall k | 0 <= k < |at|
      ensures TellsAll(RowFor(db.history, b, at[k], db.highWater + 1 + k), db, b, at[k], db.highWater + 1 + k)
    {
      Projections.ProjectionShows(b.messages[at[k]].content);
    }
  }

  // ---------------------------------------------------------------- when no content is lost

  /** The message is stored with its own payload, under its own identity. */
  ghost predicate Kept(messages: seq<Message>, b: Batch, i: nat)
    requires i < |b.messages|
  {
    exists m :: m in messages && StoredAs(m, b, i)
  }

  ghost predicate StoredAs(m: Message, b: Batch, i: nat)
    requires i < |b.messages|
  {
    && m.source == b.source && m.externalId == b.messages[i].externalId && SaysTheSame(m.payload, b.messages[i])
    && (m.externalId.None? ==> m.key == Some(b.key) && m.position == Some(i))
  }

  ghost predicate AllKept(messages: seq<Message>, b: Batch) {
    forall i :: 0 <= i < |b.messages| ==> Kept(messages, b, i)
  }

  /** No two messages of the batch have one external identifier and different content. */
  predicate Consistent(b: Batch) {
    forall i, j :: 0 <= i < j < |b.messages| && b.messages[i].externalId.Some? &&
                   b.messages[i].externalId == b.messages[j].externalId ==>
                     Alike(b.messages[i], b.messages[j])
  }

  predicate Alike(m: InputMessage, n: InputMessage) {
    && m.role == n.role && m.content == n.content && m.metadata == n.metadata
    && m.toolCalls == n.toolCalls && m.toolCallId == n.toolCallId
  }

  lemma {:induction false} KeptIfConsistent(db: Db, b: Batch, i: nat)
    requires i < |b.messages| == |b.stamps| && Ingest(db, b).reply.Committed? && Consistent(b)
    ensures Kept(Ingest(db, b).db.messages, b, i)
    decreases i
  {
    hide *;
    NoConflict(db, b, i);
    IngestStores(db, b);
    if Repeats(db.messages, b, i) { RepeatsIs(db.messages, b, i); }
    if !Repeats(db.messages, b, i) {
      FirstIsKept(db, b, i);
    } else if HasExternal(db.messages, b.source, b.messages[i].externalId.value) {
      OldIsKept(db, b, i);
    } else {
      var k :| 0 <= k < i && b.messages[k].externalId == b.messages[i].externalId;
      KeptIfConsistent(db, b, k);
      SameContent(b, k, i);
      KeptToo(Ingest(db, b).db.messages, b, k, i);
    }
  }

  lemma RepeatsIs(before: seq<Message>, b: Batch, i: nat)
    requires i < |b.messages| && Repeats(before, b, i)
    ensures b.messages[i].externalId.Some?
    ensures HasExternal(before, b.source, b.messages[i].externalId.value) ||
            exists k :: 0 <= k < i && b.messages[k].externalId == b.messages[i].externalId
  {}

  lemma KeptToo(messages: seq<Message>, b: Batch, k: nat, i: nat)
    requires k < |b.messages| && i < |b.messages| && Kept(messages, b, k)
    requires forall m :: StoredAs(m, b, k) ==> StoredAs(m, b, i)
    ensures Kept(messages, b, i)
  {}

  lemma FirstIsKept(db: Db, b: Batch, i: nat)
    requires i < |b.messages| == |b.stamps| && !Repeats(db.messages, b, i)
    ensures Kept(db.messages + RowsFor(db.history, b, Firsts(db.messages, b, |b.messages|), db.highWater + 1), b, i)
  {
    var firsts := Firsts(db.messages, b, |b.messages|);
    var rows := RowsFor(db.history, b, firsts, db.highWater + 1);
    hide Repeats, Firsts;
    var n :| 0 <= n < |firsts| && firsts[n] == i;
    assert rows[n] in db.messages + rows && StoredAs(rows[n], b, i);
  }

  lemma OldIsKept(db: Db, b: Batch, i: nat)
    requires i < |b.messages| == |b.stamps| && !Conflicts(db.messages, b.source, b.messages[i])
    requires b.messages[i].externalId.Some? && HasExternal(db.messages, b.source, b.messages[i].externalId.value)
    ensures Kept(db.messages + RowsFor(db.history, b, Firsts(db.messages, b, |b.messages|), db.highWater + 1), b, i)
  {
    var id := b.messages[i].externalId.value;
    FindExternalFacts(db.messages, b.source, id);
    var m := FindExternal(db.messages, b.source, id).value;
    hide RowsFor, Firsts, HasExternal, FindExternal;
    assert m in db.messages + RowsFor(db.history, b, Firsts(db.messages, b, |b.messages|), db.highWater + 1);
    assert StoredAs(m, b, i);
  }

  lemma SameContent(b: Batch, k: nat, i: nat)
    requires Consistent(b) && k < i < |b.messages|
    requires b.messages[k].externalId.Some? && b.messages[k].externalId == b.messages[i].externalId
    ensures forall m :: StoredAs(m, b, k) ==> StoredAs(m, b, i)
  {}

  lemma NoConflict(db: Db, b: Batch, i: nat)
    requires i < |b.messages| == |b.stamps| && Ingest(db, b).reply.Committed?
    ensures !Conflicts(db.messages, b.source, b.messages[i])
  {
    hide InsertFrom, Conflicts, RequestDigest;
  }

  /**
   * A committed batch keeps the content of all its messages exactly when it is consistent: the loop skips a
   * repeated identifier without comparing content, so a second, different message under it is dropped.
   */
  lemma KeptExactly(db: Db, b: Batch)
    requires RowsOk(db) && |b.messages| == |b.stamps| && Ingest(db, b).reply.Committed?
    ensures AllKept(Ingest(db, b).db.messages, b) <==> Consistent(b)
  {
    var after := Ingest(db, b).db.messages;
    if Consistent(b) {
      forall i | 0 <= i < |b.messages| ensures Kept(after, b, i) { KeptIfConsistent(db, b, i); }
    } else {
      IngestEffect(db, b);
      hide Ingest, Wrote, Accounts, InStep;
      var i, j :| 0 <= i < j < |b.messages| && b.messages[i].externalId.Some? &&
                  b.messages[i].externalId == b.messages[j].externalId &&
                  !Alike(b.messages[i], b.messages[j]);
      OneOfTwo(after, b, i, j);
    }
  }

  lemma OneOfTwo(messages: seq<Message>, b: Batch, i: nat, j: nat)
    requires ClashFree(messages) && i < j < |b.messages|
    requires b.messages[i].externalId.Some? && b.messages[i].externalId == b.messages[j].externalId
    requires !Alike(b.messages[i], b.messages[j])
    ensures !AllKept(messages, b)
  {
    if AllKept(messages, b) {
      assert Kept(messages, b, i) && Kept(messages, b, j);
      var m :| m in messages && StoredAs(m, b, i);
      var n :| n in messages && StoredAs(n, b, j);
      SameExternal(messages, m, n);
      assert false;
    }
  }

  lemma SameExternal(messages: seq<Message>, m: Message, n: Message)
    requires ClashFree(messages) && m in messages && n in messages
    requires m.source == n.source && m.externalId.Some? && m.externalId == n.externalId
    ensures m == n
  {
    var k: nat :| k < |messages| && messages[k] == m;
    var l: nat :| l < |messages| && messages[l] == n;
    hide ClashFree;
    if k < l {
      NoClash(messages, k, l);
      assert false;
    } else if l < k {
      NoClash(messages, l, k);
      assert false;
    }
  }

  lemma NoClash(messages: seq<Message>, k: nat, l: nat)
    requires ClashFree(messages) && k < l < |messages|
    ensures !Clashes(messages[k], messages[l])
  {}

  /** Two messages under one identifier, in a fresh store: the batch is committed and the second is gone. */
  lemma SecondIsDropped() returns (b: Batch)
    ensures |b.messages| == |b.stamps| == 2 && !Consistent(b)
    ensures var r := Ingest(NewDb("h"), b);
            r.reply.Committed? && r.reply.receipt.skipped == 1 && !AllKept(r.db.messages, b)
  {
    var one := InputMessage("user", Plain("noon"), Some("x"), None, None, None);
    var two := one.(content := Plain("one"));
    b := Batch("s", "k", [one, two], None, [Stamp(0, 0), Stamp(1, 0)]);
    assert !Alike(b.messages[0], b.messages[1]);
    NewDbOk("h", 2);
    SecondIsSkipped("h", b);
    FreshCommits("h", b);
    hide Ingest, InStep, ClashFree, InsertFrom, PayloadOf;
    KeptExactly(NewDb("h"), b);
  }

  lemma SecondIsSkipped(history: string, b: Batch)
    requires |b.messages| == |b.stamps| == 2
    requires b.messages[0].externalId.Some? && b.messages[0].externalId == b.messages[1].externalId
    ensures var r := InsertFrom(history, b, 0, Progress(Contents([], Tables(map[], map[])), 1, 0));
            r.Some? && r.value.nextSeq == 2 && r.value.skipped == 1
  {
    var start := Progress(Contents([], Tables(map[], map[])), 1, 0);
    var row := RowFor(history, b, 0, 1);
    assert !Violates([], row) && !AlreadyStored([], b.source, b.messages[0]);
    InsertFromCases(history, b, 0, start);
    var next := Progress(Insert(start.draft, row).value, 2, 0);
    FindExternalFacts(next.draft.messages, b.source, b.messages[1].externalId.value);
    assert next.draft.messages == [row] && row in [row];
    hide InsertFrom, Insert, FindExternal;
    InsertFromCases(history, b, 1, next);
    InsertFromCases(history, b, 2, next.(skipped := 1));
  }

  /** A batch of a proper size is committed to a fresh store when its rows can be inserted. */
  lemma FreshCommits(history: string, b: Batch)
    requires |b.messages| == |b.stamps| && 0 < |b.messages| <= MAX_MESSAGES_PER_BATCH
    requires InsertFrom(history, b, 0, Progress(Contents([], Tables(map[], map[])), 1, 0)).Some?
    ensures var r := Ingest(NewDb(history), b);
            && r.reply.Committed?
            && r.reply.receipt.skipped ==
               InsertFrom(history, b, 0, Progress(Contents([], Tables(map[], map[])), 1, 0)).value.skipped
  {
    hide InsertFrom, RequestDigest;
    assert forall i :: 0 <= i < |b.messages| ==> !Conflicts([], b.source, b.messages[i]);
  }
}
