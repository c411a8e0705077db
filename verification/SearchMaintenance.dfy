/** Writing, migrating and rebuilding the derived search tables. */
module SearchMaintenance {
  import opened Wrappers
  import opened Sequences
  import opened Records
  import opened SearchIndex

  // ---------------------------------------------------------------- one inserted message

  /** A row identifier not yet in use, as the table would assign. */
  function FreshRow(used: set<RowId>, from: int): (r: RowId)
    ensures r.number >= from && r !in used
    decreases |used|
  {
    if RowId(from) !in used then RowId(from) else FreshRow(used - {RowId(from)}, from + 1)
  }

  /** Both inserts of one message: the text row, then the compact row under the same identifier. */
  function AddRow(t: Tables, m: Message): Tables {
    if m.text.None? then t
    else
      var r := FreshRow(t.fts.Keys, 1);
      Tables(t.fts[r := RowOf(m)], t.compact[r := CompactRow(m.id, m.history, m.seqNo)])
  }

  lemma HoldsMore(messages: seq<Message>, m: Message, row: FtsRow)
    requires Holds(messages, row)
    ensures Holds(messages + [m], row)
  {
    var n :| n in messages && row == RowOf(n) && n.text.Some?;
    assert n in messages + [m];
  }

  lemma RepeatsMore(messages: seq<Message>, m: Message, beside: FtsRow, row: CompactRow)
    requires Repeats(messages, beside, row)
    ensures Repeats(messages + [m], beside, row)
  {
    var n :| n in messages && beside.messageId == n.id && row == CompactRow(n.id, n.history, n.seqNo);
    assert n in messages + [m];
  }

  lemma NewId(messages: seq<Message>, m: Message)
    requires NoDup(MessageIds(messages + [m]))
    ensures NoDup(MessageIds(messages)) && forall n :: n in messages ==> n.id != m.id
  {
    var ids := MessageIds(messages + [m]);
    assert MessageIds(messages) == ids[..|messages|];
    forall n | n in messages ensures n.id != m.id {
      var i :| 0 <= i < |messages| && messages[i] == n;
      assert ids[i] == n.id && ids[|messages|] == m.id;
    }
  }

  lemma AddKeepsFts(messages: seq<Message>, t: Tables, m: Message)
    requires FtsExact(messages, t.fts) && NoDup(MessageIds(messages + [m]))
    ensures FtsExact(messages + [m], AddRow(t, m).fts)
  {
    NewId(messages, m);
    var more, fts := messages + [m], AddRow(t, m).fts;
    hide NoDup, MessageIds;
    assert m in more;
    forall r | r in fts ensures Holds(more, fts[r]) {
      if r in t.fts && fts[r] == t.fts[r] { HoldsMore(messages, m, t.fts[r]); }
    }
    forall n | n in more && n.text.Some? ensures HasRow(fts, n) {
      RowStays(messages, t, m, n);
    }
    forall r | r in t.fts ensures t.fts[r].messageId != m.id {
      assert Holds(messages, t.fts[r]);
    }
    hide Holds, HasRow, RowOf;
  }

  lemma RowStays(messages: seq<Message>, t: Tables, m: Message, n: Message)
    requires AllHaveRows(messages, t.fts) && n in messages + [m] && n.text.Some?
    ensures HasRow(AddRow(t, m).fts, n)
  {
    var fts := AddRow(t, m).fts;
    if n in messages {
      assert HasRow(t.fts, n);
      var r :| r in t.fts && t.fts[r] == RowOf(n);
      assert fts[r] == RowOf(n);
    } else {
      assert fts[FreshRow(t.fts.Keys, 1)] == RowOf(n);
    }
  }

  lemma AddKeepsCompact(messages: seq<Message>, t: Tables, m: Message)
    requires CompactExact(messages, t)
    ensures CompactExact(messages + [m], AddRow(t, m))
  {
    var more, u := messages + [m], AddRow(t, m);
    assert m in more;
    hide Repeats;
    forall r | r in u.compact ensures r in u.fts && Repeats(more, u.fts[r], u.compact[r]) {
      if r in t.compact {
        assert r != FreshRow(t.fts.Keys, 1);
        RepeatsMore(messages, m, t.fts[r], t.compact[r]);
      } else {
        RepeatsItself(more, m);
      }
    }
  }

  lemma RepeatsItself(messages: seq<Message>, m: Message)
    requires m in messages
    ensures Repeats(messages, RowOf(m), CompactRow(m.id, m.history, m.seqNo))
  {}

  /** Inserting a message with an unused identifier keeps the tables in step. */
  lemma AddKeepsInStep(messages: seq<Message>, t: Tables, m: Message)
    requires InStep(messages, t) && NoDup(MessageIds(messages + [m]))
    ensures InStep(messages + [m], AddRow(t, m))
  {
    hide FtsExact, CompactExact, NoDup, MessageIds, AddRow;
    AddKeepsFts(messages, t, m);
    AddKeepsCompact(messages, t, m);
  }

  lemma EmptyInStep()
    ensures InStep([], Tables(map[], map[]))
  {}

  // ---------------------------------------------------------------- migrating and rebuilding

  /** One row of a table that may be damaged; `rowid` is None when it is not an integer. */
  datatype IdRow = IdRow(rowid: Option<RowId>, messageId: MessageId, history: string, seqNo: Option<nat>)

  /** A table that cannot be read at all is None. */
  type Damaged = Option<seq<IdRow>>

  predicate IdRowOk(messages: seq<Message>, row: IdRow, compact: bool) {
    var m := Find(messages, row.messageId);
    m.Some? && m.value.text.Some? && row.history == m.value.history && row.rowid.Some? &&
    (compact ==> row.seqNo == Some(m.value.seqNo))
  }

  function RowNames(rows: seq<IdRow>): (r: seq<MessageId>)
    ensures |r| == |rows| && forall i :: 0 <= i < |rows| ==> r[i] == rows[i].messageId
  {
    seq(|rows|, i requires 0 <= i < |rows| => rows[i].messageId)
  }

  function RowIds(rows: seq<IdRow>): (r: seq<Option<RowId>>)
    ensures |r| == |rows| && forall i :: 0 <= i < |rows| ==> r[i] == rows[i].rowid
  {
    seq(|rows|, i requires 0 <= i < |rows| => rows[i].rowid)
  }

  /** A complete identity map survives in this table: the three counts agree and no row is wrong. */
  predicate Usable(messages: seq<Message>, table: Damaged, compact: bool) {
    table.Some? &&
    var rows, expected := table.value, |WithText(messages)|;
    && |rows| == |Elements(RowNames(rows))| == |Elements(RowIds(rows))| == expected
    && forall i :: 0 <= i < |rows| ==> IdRowOk(messages, rows[i], compact)
  }

  function IdMap(rows: seq<IdRow>): map<RowId, MessageId> {
    if rows == [] then map[]
    else
      var row := rows[|rows|-1];
      var m := IdMap(rows[..|rows|-1]);
      if row.rowid.Some? then m[row.rowid.value := row.messageId] else m
  }

  /** The fallback: rows numbered from one in sequence order. */
  function Numbering(messages: seq<Message>): map<RowId, MessageId> {
    var w := SortBy((m: Message) => m.seqNo, WithText(messages));
    NumberFrom(w)
  }

  /** Row `i + 1` names message `i`. */
  function NumberFrom(w: seq<Message>): map<RowId, MessageId> {
    if w == [] then map[] else NumberFrom(w[..|w|-1])[RowId(|w|) := w[|w|-1].id]
  }

  function KeptRows(messages: seq<Message>, fts: Damaged, compact: Damaged): map<RowId, MessageId> {
    if Usable(messages, fts, false) then IdMap(fts.value)
    else if Usable(messages, compact, true) then IdMap(compact.value)
    else Numbering(messages)
  }

  /** The text table refilled from original projections under the kept identifiers. */
  function Refill(messages: seq<Message>, kept: map<RowId, MessageId>): map<RowId, FtsRow> {
    map r | r in kept && Find(messages, kept[r]).Some? :: RowOf(Find(messages, kept[r]).value)
  }

  /** The compact table derived from the text table and the messages. */
  function Backfill(messages: seq<Message>, fts: map<RowId, FtsRow>): map<RowId, CompactRow> {
    map r | r in fts && Find(messages, fts[r].messageId).Some? ::
      var m := Find(messages, fts[r].messageId).value; CompactRow(m.id, m.history, m.seqNo)
  }

  /** rebuild_search_index: None is StoreCorrupt, with the whole transaction rolled back. */
  function Rebuild(history: string, messages: seq<Message>, fts: Damaged, compact: Damaged): Option<Tables> {
    var text := Refill(messages, KeptRows(messages, fts, compact));
    var t := Tables(text, Backfill(messages, text));
    if Validates(history, messages, t) then Some(t) else None
  }

  /** migrate from version 1: the text table must already be right, the compact table is derived. */
  function Migrate(history: string, messages: seq<Message>, fts: map<RowId, FtsRow>): Option<Tables> {
    if !(AuthorityOk(history, messages) && FtsMatches(messages, fts)) then None
    else
      var t := Tables(fts, Backfill(messages, fts));
      if Validates(history, messages, t) then Some(t) else None
  }

  ghost predicate OnlyKnown(ids: set<MessageId>, kept: map<RowId, MessageId>) {
    forall r :: r in kept ==> kept[r] in ids
  }

  ghost predicate OnceEach(kept: map<RowId, MessageId>) {
    forall r, q :: r in kept && q in kept && kept[r] == kept[q] ==> r == q
  }

  ghost predicate NamedBy(kept: map<RowId, MessageId>, id: MessageId) {
    exists r :: r in kept && kept[r] == id
  }

  ghost predicate AllNamed(ids: set<MessageId>, kept: map<RowId, MessageId>) {
    forall id :: id in ids ==> NamedBy(kept, id)
  }

  /** Each message with text is named by exactly one row. */
  ghost predicate Complete(messages: seq<Message>, kept: map<RowId, MessageId>) {
    OnlyKnown(TextIds(messages), kept) && OnceEach(kept) && AllNamed(TextIds(messages), kept)
  }

  lemma TextIdFound(messages: seq<Message>, id: MessageId)
    requires NoDup(MessageIds(messages)) && id in TextIds(messages)
    ensures var m := Find(messages, id); m.Some? && m.value in messages && m.value.id == id && m.value.text.Some?
  {
    TextIdsFacts(messages);
    var m :| m in messages && m.text.Some? && m.id == id;
    FindUnique(messages, m);
  }

  lemma RefillExact(messages: seq<Message>, kept: map<RowId, MessageId>)
    requires NoDup(MessageIds(messages)) && Complete(messages, kept)
    ensures FtsExact(messages, Refill(messages, kept))
    ensures forall r :: r in kept ==> r in Refill(messages, kept) && Refill(messages, kept)[r].messageId == kept[r]
  {
    var fts := Refill(messages, kept);
    forall r | r in kept
      ensures r in fts && fts[r].messageId == kept[r] && Holds(messages, fts[r])
    {
      TextIdFound(messages, kept[r]);
    }
    forall m | m in messages && m.text.Some? ensures HasRow(fts, m) {
      TextIdsFacts(messages);
      FindUnique(messages, m);
      assert NamedBy(kept, m.id);
      var r :| r in kept && kept[r] == m.id;
      assert fts[r] == RowOf(m);
    }
  }

  lemma BackfillExact(messages: seq<Message>, fts: map<RowId, FtsRow>)
    requires NoDup(MessageIds(messages)) && FtsExact(messages, fts)
    ensures CompactExact(messages, Tables(fts, Backfill(messages, fts)))
  {
    var compact := Backfill(messages, fts);
    forall r | r in fts ensures r in compact && Repeats(messages, fts[r], compact[r]) {
      assert Holds(messages, fts[r]);
      var m :| m in messages && fts[r] == RowOf(m) && m.text.Some?;
      FindUnique(messages, m);
    }
  }

  /** The kept map gives row `row` its old identifier. */
  ghost predicate Keeps(kept: map<RowId, MessageId>, row: IdRow) {
    row.rowid.Some? && row.rowid.value in kept && kept[row.rowid.value] == row.messageId
  }

  ghost predicate FromRow(rows: seq<IdRow>, r: RowId) {
    exists i :: 0 <= i < |rows| && rows[i].rowid == Some(r)
  }

  lemma {:induction false} IdMapFacts(rows: seq<IdRow>)
    requires NoDup(RowIds(rows)) && forall i :: 0 <= i < |rows| ==> rows[i].rowid.Some?
    ensures forall i :: 0 <= i < |rows| ==> Keeps(IdMap(rows), rows[i])
    ensures forall r :: r in IdMap(rows) ==> FromRow(rows, r)
  {
    if rows != [] {
      var init, row := rows[..|rows|-1], rows[|rows|-1];
      assert RowIds(init) == RowIds(rows)[..|rows|-1];
      IdMapFacts(init);
      forall i | 0 <= i < |init| ensures Keeps(IdMap(rows), rows[i]) {
        assert RowIds(rows)[i] == rows[i].rowid && RowIds(rows)[|rows|-1] == row.rowid;
        assert Keeps(IdMap(init), init[i]);
      }
      forall r | r in IdMap(rows) ensures FromRow(rows, r) {
        if r == row.rowid.value {
          assert rows[|rows|-1].rowid == Some(r);
        } else {
          assert FromRow(init, r);
          var i :| 0 <= i < |init| && init[i].rowid == Some(r);
          assert rows[i].rowid == Some(r);
        }
      }
    }
  }

  lemma UsableFacts(messages: seq<Message>, rows: seq<IdRow>, compact: bool)
    requires NoDup(MessageIds(messages)) && Usable(messages, Some(rows), compact)
    ensures NoDup(RowIds(rows)) && NoDup(RowNames(rows)) && Elements(RowNames(rows)) == TextIds(messages)
    ensures forall i :: 0 <= i < |rows| ==> rows[i].rowid.Some?
  {
    CardinalityNoDup(RowNames(rows));
    CardinalityNoDup(RowIds(rows));
    TextIdsFacts(messages);
    hide TextIds, NoDup, MessageIds;
    forall id | id in Elements(RowNames(rows)) ensures id in TextIds(messages) {
      var i :| 0 <= i < |rows| && RowNames(rows)[i] == id;
      assert IdRowOk(messages, rows[i], compact);
      FindFacts(messages, rows[i].messageId);
    }
    SubsetFull(Elements(RowNames(rows)), TextIds(messages));
  }

  /** Three equal counts and no wrong row leave a complete identity map. */
  lemma UsableIsComplete(messages: seq<Message>, table: Damaged, compact: bool)
    requires NoDup(MessageIds(messages)) && Usable(messages, table, compact)
    ensures Complete(messages, IdMap(table.value))
    ensures forall i :: 0 <= i < |table.value| ==> Keeps(IdMap(table.value), table.value[i])
  {
    var rows := table.value;
    UsableFacts(messages, rows, compact);
    IdMapFacts(rows);
    hide TextIds, MessageIds, Usable, IdMap;
    RowsComplete(TextIds(messages), rows, IdMap(rows));
  }

  /** What a surviving row should say of some message that has text. */
  ghost predicate Describes(m: Message, row: IdRow, compact: bool) {
    && m.text.Some? && row.messageId == m.id && row.history == m.history && row.rowid.Some?
    && (compact ==> row.seqNo == Some(m.seqNo))
  }

  ghost predicate DescribesSome(messages: seq<Message>, row: IdRow, compact: bool) {
    exists m :: m in messages && Describes(m, row, compact)
  }

  ghost predicate Mentioned(rows: seq<IdRow>, id: MessageId) {
    exists i :: 0 <= i < |rows| && rows[i].messageId == id
  }

  /** The rows describe the messages that have text, each once, under distinct row identifiers. */
  ghost predicate DescribeEach(messages: seq<Message>, rows: seq<IdRow>, compact: bool) {
    && (forall i :: 0 <= i < |rows| ==> DescribesSome(messages, rows[i], compact))
    && (forall i, j :: 0 <= i < j < |rows| ==> rows[i].messageId != rows[j].messageId && rows[i].rowid != rows[j].rowid)
    && forall m :: m in messages && m.text.Some? ==> Mentioned(rows, m.id)
  }

  lemma RowDescribes(messages: seq<Message>, row: IdRow, compact: bool)
    requires NoDup(MessageIds(messages))
    ensures IdRowOk(messages, row, compact) <==> DescribesSome(messages, row, compact)
  {
    FindFacts(messages, row.messageId);
    if m :| m in messages && Describes(m, row, compact) { FindUnique(messages, m); }
    if IdRowOk(messages, row, compact) { assert Describes(Find(messages, row.messageId).value, row, compact); }
  }

  /** A table is usable exactly if its rows describe the messages that have text, each once. */
  lemma UsableExactly(messages: seq<Message>, table: Damaged, compact: bool)
    requires NoDup(MessageIds(messages))
    ensures Usable(messages, table, compact) <==> table.Some? && DescribeEach(messages, table.value, compact)
  {
    if table.Some? {
      var rows := table.value;
      forall i | 0 <= i < |rows| ensures IdRowOk(messages, rows[i], compact) <==>
                                         DescribesSome(messages, rows[i], compact) {
        RowDescribes(messages, rows[i], compact);
      }
      hide IdRowOk, DescribesSome;
      if Usable(messages, table, compact) { UsableDescribes(messages, rows, compact); }
      if DescribeEach(messages, rows, compact) { DescribedCounts(messages, rows, compact); }
    }
  }

  lemma UsableDescribes(messages: seq<Message>, rows: seq<IdRow>, compact: bool)
    requires NoDup(MessageIds(messages)) && Usable(messages, Some(rows), compact)
    requires forall i :: 0 <= i < |rows| ==> DescribesSome(messages, rows[i], compact)
    ensures DescribeEach(messages, rows, compact)
  {
    UsableFacts(messages, rows, compact);
    TextIdsFacts(messages);
    hide DescribesSome, Usable, TextIds, MessageIds;
    forall i, j | 0 <= i < j < |rows| ensures rows[i].messageId != rows[j].messageId && rows[i].rowid != rows[j].rowid {
      assert RowNames(rows)[i] != RowNames(rows)[j] && RowIds(rows)[i] != RowIds(rows)[j];
    }
    forall m | m in messages && m.text.Some? ensures Mentioned(rows, m.id) {
      assert m.id in Elements(RowNames(rows));
      var i :| 0 <= i < |rows| && RowNames(rows)[i] == m.id;
      assert rows[i].messageId == m.id;
    }
  }

  lemma DescribedCounts(messages: seq<Message>, rows: seq<IdRow>, compact: bool)
    requires NoDup(MessageIds(messages)) && DescribeEach(messages, rows, compact)
    ensures |rows| == |Elements(RowNames(rows))| == |Elements(RowIds(rows))| == |WithText(messages)|
  {
    TextIdsFacts(messages);
    hide TextIds, MessageIds, WithText;
    var names, ids := RowNames(rows), RowIds(rows);
    assert NoDup(names) && NoDup(ids);
    CardinalityNoDup(names);
    CardinalityNoDup(ids);
    forall id | id in TextIds(messages) ensures id in Elements(names) {
      var m :| m in messages && m.text.Some? && m.id == id;
      assert Mentioned(rows, id);
      var i :| 0 <= i < |rows| && rows[i].messageId == id;
      assert names[i] == id;
    }
    forall id | id in Elements(names) ensures id in TextIds(messages) {
      var i :| 0 <= i < |rows| && names[i] == id;
      assert DescribesSome(messages, rows[i], compact);
    }
    assert Elements(names) == TextIds(messages);
  }

  lemma RowsComplete(ids: set<MessageId>, rows: seq<IdRow>, kept: map<RowId, MessageId>)
    requires NoDup(RowNames(rows)) && Elements(RowNames(rows)) == ids
    requires forall i :: 0 <= i < |rows| ==> Keeps(kept, rows[i])
    requires forall r :: r in kept ==> FromRow(rows, r)
    ensures OnlyKnown(ids, kept) && OnceEach(kept) && AllNamed(ids, kept)
  {
    forall r | r in kept ensures kept[r] in ids {
      var i := RowOfKept(rows, kept, r);
      assert RowNames(rows)[i] in RowNames(rows);
    }
    forall r, q | r in kept && q in kept && kept[r] == kept[q] ensures r == q {
      var i := RowOfKept(rows, kept, r);
      var j := RowOfKept(rows, kept, q);
      assert RowNames(rows)[i] == RowNames(rows)[j];
    }
    forall id | id in ids ensures NamedBy(kept, id) {
      assert id in RowNames(rows);
      var i :| 0 <= i < |rows| && RowNames(rows)[i] == id;
      assert Keeps(kept, rows[i]);
    }
  }

  lemma RowOfKept(rows: seq<IdRow>, kept: map<RowId, MessageId>, r: RowId) returns (i: nat)
    requires r in kept && FromRow(rows, r) && forall i :: 0 <= i < |rows| ==> Keeps(kept, rows[i])
    ensures i < |rows| && rows[i].rowid == Some(r) && rows[i].messageId == kept[r]
  {
    i :| 0 <= i < |rows| && rows[i].rowid == Some(r);
    assert Keeps(kept, rows[i]);
  }

  lemma NumberingIsComplete(messages: seq<Message>)
    requires NoDup(MessageIds(messages))
    ensures Complete(messages, Numbering(messages))
  {
    var w := WithText(messages);
    var s := SortBy((m: Message) => m.seqNo, w);
    WithTextFacts(messages);
    SortByFacts((m: Message) => m.seqNo, w);
    TextIdsFacts(messages);
    DistinctById(w, s);
    hide NoDup, MessageIds, TextIds, WithText;
    forall id | id in TextIds(messages) ensures exists i :: 0 <= i < |s| && s[i].id == id {
      var m :| m in messages && m.text.Some? && m.id == id;
      assert m in s;
    }
    forall i | 0 <= i < |s| ensures s[i].id in TextIds(messages) {
      assert s[i] in w;
    }
    hide SortBy;
    NumberFromFacts(s);
    NumberedComplete(TextIds(messages), s, Numbering(messages));
  }

  ghost predicate Numbers(kept: map<RowId, MessageId>, w: seq<Message>, i: nat)
    requires i < |w|
  {
    RowId(i + 1) in kept && kept[RowId(i + 1)] == w[i].id
  }

  lemma {:induction false} NumberFromFacts(w: seq<Message>)
    ensures forall i :: 0 <= i < |w| ==> Numbers(NumberFrom(w), w, i)
    ensures forall r :: r in NumberFrom(w) ==> 1 <= r.number <= |w|
  {
    if w != [] {
      var init := w[..|w|-1];
      NumberFromFacts(init);
      forall i | 0 <= i < |w| ensures Numbers(NumberFrom(w), w, i) {
        if i < |init| { assert Numbers(NumberFrom(init), init, i); }
      }
    }
  }

  lemma NumberedComplete(ids: set<MessageId>, s: seq<Message>, kept: map<RowId, MessageId>)
    requires forall i :: 0 <= i < |s| ==> Numbers(kept, s, i)
    requires forall r :: r in kept ==> 1 <= r.number <= |s|
    requires forall i, j :: 0 <= i < j < |s| ==> s[i].id != s[j].id
    requires forall id :: id in ids ==> exists i :: 0 <= i < |s| && s[i].id == id
    requires forall i :: 0 <= i < |s| ==> s[i].id in ids
    ensures OnlyKnown(ids, kept) && OnceEach(kept) && AllNamed(ids, kept)
  {
    forall r | r in kept ensures kept[r] == s[r.number - 1].id {
      assert Numbers(kept, s, r.number - 1);
    }
    forall id | id in ids ensures NamedBy(kept, id) {
      var i :| 0 <= i < |s| && s[i].id == id;
      assert Numbers(kept, s, i);
    }
    forall r, q | r in kept && q in kept && kept[r] == kept[q] ensures r == q {
      assert s[r.number - 1].id == s[q.number - 1].id;
    }
  }

  lemma DistinctById(w: seq<Message>, s: seq<Message>)
    requires NoDup(MessageIds(w)) && multiset(s) == multiset(w)
    ensures forall i, j :: 0 <= i < j < |s| ==> s[i].id != s[j].id
  {
    SameMultiset(s, w);
    forall i, j | 0 <= i < j < |w| ensures w[i] != w[j] {
      assert MessageIds(w)[i] != MessageIds(w)[j];
    }
    NoDupMultiset(w);
    NoDupMultiset(s);
    forall i, j | 0 <= i < j < |s| ensures s[i].id != s[j].id {
      assert s[i] in w && s[j] in w;
      var x :| 0 <= x < |w| && w[x] == s[i];
      var y :| 0 <= y < |w| && w[y] == s[j];
      assert MessageIds(w)[x] == s[i].id && MessageIds(w)[y] == s[j].id;
    }
  }

  lemma KeptIsComplete(messages: seq<Message>, fts: Damaged, compact: Damaged)
    requires NoDup(MessageIds(messages))
    ensures Complete(messages, KeptRows(messages, fts, compact))
  {
    hide Complete, Usable, Numbering, IdMap;
    if Usable(messages, fts, false) {
      UsableIsComplete(messages, fts, false);
    } else if Usable(messages, compact, true) {
      UsableIsComplete(messages, compact, true);
    } else {
      NumberingIsComplete(messages);
    }
  }

  /**
   * Whatever the derived tables have become, a rebuild puts them in step with the messages, provided
   * the messages themselves carry the right history and positive sequence numbers; otherwise it refuses.
   */
  lemma RebuildRestores(history: string, messages: seq<Message>, fts: Damaged, compact: Damaged)
    requires NoDup(MessageIds(messages))
    ensures Rebuild(history, messages, fts, compact).Some? <==>
            forall m :: m in messages ==> m.history == history && 1 <= m.seqNo
    ensures Rebuild(history, messages, fts, compact).Some? ==>
              InStep(messages, Rebuild(history, messages, fts, compact).value)
  {
    var kept := KeptRows(messages, fts, compact);
    KeptIsComplete(messages, fts, compact);
    RefillExact(messages, kept);
    var text := Refill(messages, kept);
    BackfillExact(messages, text);
    ValidationIsExact(history, messages, Tables(text, Backfill(messages, text)));
  }

  /** Row identifiers survive a rebuild whenever one complete identity map does, text table first. */
  lemma RebuildKeepsRowIds(history: string, messages: seq<Message>, fts: Damaged, compact: Damaged, table: Damaged)
    requires NoDup(MessageIds(messages)) && (forall m :: m in messages ==> m.history == history && 1 <= m.seqNo)
    requires table.Some?
    requires var intact := fts.Some? && DescribeEach(messages, fts.value, false);
             || (table == fts && intact)
             || (table == compact && !intact && DescribeEach(messages, table.value, true))
    ensures var t := Rebuild(history, messages, fts, compact);
            t.Some? && forall i :: 0 <= i < |table.value| ==> StillNames(t.value.fts, table.value[i])
  {
    hide *;
    UsableExactly(messages, fts, false);
    UsableExactly(messages, compact, true);
    RebuildRestores(history, messages, fts, compact);
    KeptIsComplete(messages, fts, compact);
    var kept := KeptRows(messages, fts, compact);
    RefillExact(messages, kept);
    RebuildIsRefill(history, messages, fts, compact);
    KeptFrom(messages, fts, compact, table);
    forall i | 0 <= i < |table.value| ensures StillNames(Refill(messages, kept), table.value[i]) {
      KeptNameSurvives(messages, kept, table.value[i]);
    }
  }

  ghost predicate Names(t: Tables, r: RowId, m: Message) {
    r in t.fts && t.fts[r].messageId == m.id
  }

  /** The message of row `q` is not later than that of row `r`. */
  ghost predicate NoLater(messages: seq<Message>, t: Tables, q: RowId, r: RowId) {
    forall m, n :: m in messages && n in messages && Names(t, q, m) && Names(t, r, n) ==> m.seqNo <= n.seqNo
  }

  /** When no identity map survives, the rows are numbered from one in sequence order. */
  lemma RebuildNumbersAnew(history: string, messages: seq<Message>, fts: Damaged, compact: Damaged)
    requires NoDup(MessageIds(messages)) && (forall m :: m in messages ==> m.history == history && 1 <= m.seqNo)
    requires fts.None? || !DescribeEach(messages, fts.value, false)
    requires compact.None? || !DescribeEach(messages, compact.value, true)
    ensures var t := Rebuild(history, messages, fts, compact);
            && t.Some? && (forall r :: r in t.value.fts <==> 1 <= r.number <= |t.value.fts|)
            && forall q: RowId, r: RowId :: q.number < r.number ==> NoLater(messages, t.value, q, r)
  {
    hide *;
    RebuildRestores(history, messages, fts, compact);
    KeptIsComplete(messages, fts, compact);
    UsableExactly(messages, fts, false);
    UsableExactly(messages, compact, true);
    var kept := KeptRows(messages, fts, compact);
    KeptAnew(messages, fts, compact);
    RefillExact(messages, kept);
    RefillOnly(messages, kept);
    RebuildIsRefill(history, messages, fts, compact);
    NumberingInOrder(messages);
    NumberedRows(messages, Rebuild(history, messages, fts, compact).value);
  }

  lemma KeptAnew(messages: seq<Message>, fts: Damaged, compact: Damaged)
    requires !Usable(messages, fts, false) && !Usable(messages, compact, true)
    ensures KeptRows(messages, fts, compact) == Numbering(messages)
  {
    hide Usable, Numbering;
  }

  lemma RefillOnly(messages: seq<Message>, kept: map<RowId, MessageId>)
    requires forall r :: r in kept ==> r in Refill(messages, kept) && Refill(messages, kept)[r].messageId == kept[r]
    ensures Refill(messages, kept).Keys == kept.Keys
    ensures forall r :: r in kept ==> Refill(messages, kept)[r].messageId == kept[r]
  {}

  /** The fallback names the sorted messages by position. */
  ghost predicate InTurn(messages: seq<Message>, kept: map<RowId, MessageId>, s: seq<Message>) {
    && (forall m :: m in s ==> m in messages)
    && (forall i, j :: 0 <= i <= j < |s| ==> s[i].seqNo <= s[j].seqNo)
    && (forall r :: r in kept <==> 1 <= r.number <= |s|)
    && forall i :: 0 <= i < |s| ==> Numbers(kept, s, i)
  }

  lemma NumberingInOrder(messages: seq<Message>)
    requires NoDup(MessageIds(messages))
    ensures exists s :: InTurn(messages, Numbering(messages), s)
  {
    var w := WithText(messages);
    var s := SortBy((m: Message) => m.seqNo, w);
    WithTextFacts(messages);
    SortByFacts((m: Message) => m.seqNo, w);
    SameMultiset(s, w);
    NumberFromFacts(s);
    assert Numbering(messages) == NumberFrom(s);
    hide NoDup, MessageIds, WithText, SortBy, NumberFrom;
    forall r: RowId | 1 <= r.number <= |s| ensures r in NumberFrom(s) {
      assert Numbers(NumberFrom(s), s, r.number - 1);
    }
    assert InTurn(messages, Numbering(messages), s);
  }

  lemma NumberedRows(messages: seq<Message>, t: Tables)
    requires NoDup(MessageIds(messages)) && exists s :: InTurn(messages, Numbering(messages), s)
    requires t.fts.Keys == Numbering(messages).Keys
    requires forall r :: r in t.fts ==> t.fts[r].messageId == Numbering(messages)[r]
    ensures forall r :: r in t.fts <==> 1 <= r.number <= |t.fts|
    ensures forall q: RowId, r: RowId :: q.number < r.number ==> NoLater(messages, t, q, r)
  {
    var kept := Numbering(messages);
    var s :| InTurn(messages, kept, s);
    hide Numbering;
    CountedFrom(t.fts.Keys, |s|);
    assert |t.fts.Keys| == |t.fts|;
    forall q: RowId, r: RowId | q.number < r.number ensures NoLater(messages, t, q, r) {
      forall m, n | m in messages && n in messages && Names(t, q, m) && Names(t, r, n) ensures m.seqNo <= n.seqNo {
        NamedAt(messages, kept, s, q, m);
        NamedAt(messages, kept, s, r, n);
      }
    }
  }

  lemma NamedAt(messages: seq<Message>, kept: map<RowId, MessageId>, s: seq<Message>, r: RowId, m: Message)
    requires NoDup(MessageIds(messages)) && InTurn(messages, kept, s) && r in kept && kept[r] == m.id && m in messages
    ensures 1 <= r.number <= |s| && s[r.number - 1] == m
  {
    assert Numbers(kept, s, r.number - 1);
    FindUnique(messages, m);
    FindUnique(messages, s[r.number - 1]);
  }

  /** The identifiers from one to `n` are `n` many. */
  lemma {:induction false} CountedFrom(rows: set<RowId>, n: nat)
    requires forall r: RowId :: r in rows <==> 1 <= r.number <= n
    ensures |rows| == n
  {
    if n > 0 {
      assert RowId(n) in rows;
      CountedFrom(rows - {RowId(n)}, n - 1);
    } else {
      assert rows == {};
    }
  }

  lemma RebuildIsRefill(history: string, messages: seq<Message>, fts: Damaged, compact: Damaged)
    requires Rebuild(history, messages, fts, compact).Some?
    ensures Rebuild(history, messages, fts, compact).value.fts == Refill(messages, KeptRows(messages, fts, compact))
  {}

  lemma KeptFrom(messages: seq<Message>, fts: Damaged, compact: Damaged, table: Damaged)
    requires NoDup(MessageIds(messages))
    requires (table == fts && Usable(messages, fts, false)) ||
             (table == compact && !Usable(messages, fts, false) && Usable(messages, compact, true))
    ensures table.Some? &&
            forall i :: 0 <= i < |table.value| ==> Keeps(KeptRows(messages, fts, compact), table.value[i])
  {
    UsableIsComplete(messages, table, !Usable(messages, fts, false));
  }

  lemma KeptNameSurvives(messages: seq<Message>, kept: map<RowId, MessageId>, row: IdRow)
    requires Keeps(kept, row) && forall r :: r in kept ==>
               r in Refill(messages, kept) && Refill(messages, kept)[r].messageId == kept[r]
    ensures StillNames(Refill(messages, kept), row)
  {}

  ghost predicate StillNames(fts: map<RowId, FtsRow>, row: IdRow) {
    row.rowid.Some? && row.rowid.value in fts && fts[row.rowid.value].messageId == row.messageId
  }

  /** Migration succeeds exactly on a store whose text table is right, and then the tables are in step. */
  lemma MigrateIsExact(history: string, messages: seq<Message>, fts: map<RowId, FtsRow>)
    requires NoDup(MessageIds(messages))
    ensures Migrate(history, messages, fts).Some? <==>
            FtsExact(messages, fts) && forall m :: m in messages ==> m.history == history && 1 <= m.seqNo
    ensures Migrate(history, messages, fts).Some? ==>
              Migrate(history, messages, fts).value.fts == fts
                && InStep(messages, Migrate(history, messages, fts).value)
  {
    FtsCheckExact(messages, fts);
    if FtsExact(messages, fts) {
      BackfillExact(messages, fts);
      ValidationIsExact(history, messages, Tables(fts, Backfill(messages, fts)));
    }
  }
}
