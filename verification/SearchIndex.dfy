/**
 * The derived search tables against the authoritative messages
 * (packages/python/src/cci/search_metadata.py and the maintenance in store.py).
 */
module SearchIndex {
  import opened Wrappers
  import opened Sequences
  import opened Records

  /** SQLite row identifiers: any integer. */
  datatype RowId = RowId(number: int)

  datatype FtsRow = FtsRow(messageId: MessageId, history: string, text: string)

  datatype CompactRow = CompactRow(messageId: MessageId, history: string, seqNo: nat)

  /** Full-text rows and compact rows, both by row identifier. */
  datatype Tables = Tables(fts: map<RowId, FtsRow>, compact: map<RowId, CompactRow>)

  // ---------------------------------------------------------------- the check, as the source counts

  predicate AuthorityOk(history: string, messages: seq<Message>) {
    forall m :: m in messages ==> m.history == history && m.seqNo >= 1
  }

  predicate FtsRowOk(messages: seq<Message>, row: FtsRow) {
    var m := Find(messages, row.messageId);
    m.Some? && m.value.text == Some(row.text) && row.history == m.value.history
  }

  predicate CompactRowOk(messages: seq<Message>, fts: map<RowId, FtsRow>, id: RowId, row: CompactRow) {
    var m := Find(messages, row.messageId);
    id in fts && m.Some? && row.messageId == fts[id].messageId && row.history == fts[id].history &&
    row.history == m.value.history && row.seqNo == m.value.seqNo
  }

  function Named(fts: map<RowId, FtsRow>): set<MessageId> {
    set r | r in fts :: fts[r].messageId
  }

  predicate FtsMatches(messages: seq<Message>, fts: map<RowId, FtsRow>) {
    var expected := |WithText(messages)|;
    |fts| == expected && |Named(fts)| == expected && forall r :: r in fts ==> FtsRowOk(messages, fts[r])
  }

  /** Counts and row checks only: `validate_search_metadata` accepts. */
  predicate Validates(history: string, messages: seq<Message>, t: Tables) {
    AuthorityOk(history, messages) && FtsMatches(messages, t.fts) && CompactMatches(messages, t)
  }

  // ---------------------------------------------------------------- what it is supposed to mean

  function RowOf(m: Message): FtsRow {
    FtsRow(m.id, m.history, if m.text.Some? then m.text.value else "")
  }

  /** `row` holds exactly the text of some stored message that has text. */
  ghost predicate Holds(messages: seq<Message>, row: FtsRow) {
    exists m :: m in messages && row == RowOf(m) && m.text.Some?
  }

  ghost predicate HasRow(fts: map<RowId, FtsRow>, m: Message) {
    exists r :: r in fts && fts[r] == RowOf(m)
  }

  ghost predicate OneRowEach(fts: map<RowId, FtsRow>) {
    forall r, q :: r in fts && q in fts && fts[r].messageId == fts[q].messageId ==> r == q
  }

  ghost predicate AllHold(messages: seq<Message>, fts: map<RowId, FtsRow>) {
    forall r :: r in fts ==> Holds(messages, fts[r])
  }

  ghost predicate AllHaveRows(messages: seq<Message>, fts: map<RowId, FtsRow>) {
    forall m :: m in messages && m.text.Some? ==> HasRow(fts, m)
  }

  /** One full-text row for each message with text, holding exactly that text. */
  ghost predicate FtsExact(messages: seq<Message>, fts: map<RowId, FtsRow>) {
    AllHold(messages, fts) && OneRowEach(fts) && AllHaveRows(messages, fts)
  }

  /** `row` repeats the identity of the full-text row beside it, with the message's sequence number. */
  ghost predicate Repeats(messages: seq<Message>, beside: FtsRow, row: CompactRow) {
    exists m :: m in messages && beside.messageId == m.id && row == CompactRow(m.id, m.history, m.seqNo)
  }

  ghost predicate CompactExact(messages: seq<Message>, t: Tables) {
    t.compact.Keys == t.fts.Keys && forall r :: r in t.compact ==> Repeats(messages, t.fts[r], t.compact[r])
  }

  ghost predicate InStep(messages: seq<Message>, t: Tables) {
    FtsExact(messages, t.fts) && CompactExact(messages, t)
  }

  // ---------------------------------------------------------------- counting

  function NamesOf(fts: map<RowId, FtsRow>, rows: set<RowId>): set<MessageId>
    requires rows <= fts.Keys
  {
    set r | r in rows :: fts[r].messageId
  }

  ghost predicate OneRowAmong(fts: map<RowId, FtsRow>, rows: set<RowId>)
    requires rows <= fts.Keys
  {
    forall r, q :: r in rows && q in rows && fts[r].messageId == fts[q].messageId ==> r == q
  }

  lemma {:induction false} NamesInjective(fts: map<RowId, FtsRow>, rows: set<RowId>)
    requires rows <= fts.Keys
    ensures |NamesOf(fts, rows)| <= |rows|
    ensures |NamesOf(fts, rows)| == |rows| <==> OneRowAmong(fts, rows)
  {
    if rows != {} {
      var r := SomeElement(rows);
      var rest := rows - {r};
      NamesInjective(fts, rest);
      assert NamesOf(fts, rows) == NamesOf(fts, rest) + {fts[r].messageId};
      assert OneRowAmong(fts, rows) ==> OneRowAmong(fts, rest);
      if fts[r].messageId in NamesOf(fts, rest) {
        var q :| q in rest && fts[q].messageId == fts[r].messageId;
        assert !OneRowAmong(fts, rows);
      } else {
        forall q | q in rest ensures fts[q].messageId != fts[r].messageId {
          assert fts[q].messageId in NamesOf(fts, rest);
        }
      }
    }
  }

  /** As many names as rows: no name is used twice. */
  lemma NamedInjective(fts: map<RowId, FtsRow>)
    ensures |Named(fts)| <= |fts|
    ensures |Named(fts)| == |fts| <==> OneRowEach(fts)
  {
    NamesInjective(fts, fts.Keys);
    assert NamesOf(fts, fts.Keys) == Named(fts);
    assert |fts.Keys| == |fts|;
  }

  function TextIds(messages: seq<Message>): set<MessageId> {
    Elements(MessageIds(WithText(messages)))
  }

  lemma TextIdsFacts(messages: seq<Message>)
    requires NoDup(MessageIds(messages))
    ensures |TextIds(messages)| == |WithText(messages)|
    ensures forall m :: m in messages && m.text.Some? ==> m.id in TextIds(messages)
    ensures forall id :: id in TextIds(messages) ==> exists m :: m in messages && m.text.Some? && m.id == id
  {
    WithTextFacts(messages);
    var w := WithText(messages);
    CardinalityNoDup(MessageIds(w));
    forall m | m in messages && m.text.Some? ensures m.id in TextIds(messages) {
      var i :| 0 <= i < |w| && w[i] == m;
      assert MessageIds(w)[i] == m.id;
    }
    forall id | id in TextIds(messages) ensures exists m :: m in messages && m.text.Some? && m.id == id {
      var i :| 0 <= i < |w| && MessageIds(w)[i] == id;
      assert w[i] in w;
    }
  }

  lemma FtsRowMeaning(messages: seq<Message>, row: FtsRow)
    requires NoDup(MessageIds(messages))
    ensures FtsRowOk(messages, row) <==> Holds(messages, row)
  {
    FindFacts(messages, row.messageId);
    if Holds(messages, row) {
      var m :| m in messages && row == RowOf(m) && m.text.Some?;
      FindUnique(messages, m);
    }
  }

  /** The full-text half of the check is exact: counting plus row checks leave only a bijection. */
  lemma FtsCheckExact(messages: seq<Message>, fts: map<RowId, FtsRow>)
    requires NoDup(MessageIds(messages))
    ensures FtsMatches(messages, fts) <==> FtsExact(messages, fts)
  {
    NamedInjective(fts);
    forall r | r in fts ensures FtsRowOk(messages, fts[r]) <==> Holds(messages, fts[r]) {
      FtsRowMeaning(messages, fts[r]);
    }
    hide FtsRowOk, Holds, OneRowEach, AllHaveRows, Named, NoDup, MessageIds;
    if FtsMatches(messages, fts) { FtsCheckSound(messages, fts); }
    if FtsExact(messages, fts) { FtsCheckComplete(messages, fts); }
  }

  lemma FtsCheckSound(messages: seq<Message>, fts: map<RowId, FtsRow>)
    requires NoDup(MessageIds(messages)) && |Named(fts)| == |WithText(messages)| && AllHold(messages, fts)
    ensures AllHaveRows(messages, fts)
  {
    TextIdsFacts(messages);
    forall id | id in Named(fts) ensures id in TextIds(messages) {
      var r :| r in fts && fts[r].messageId == id;
      assert Holds(messages, fts[r]);
    }
    SubsetFull(Named(fts), TextIds(messages));
    hide TextIds, NoDup, MessageIds;
    forall m | m in messages && m.text.Some? ensures HasRow(fts, m) {
      assert m.id in Named(fts);
      var r :| r in fts && fts[r].messageId == m.id;
      assert Holds(messages, fts[r]);
      var n :| n in messages && fts[r] == RowOf(n) && n.text.Some?;
      FindUnique(messages, m);
      FindUnique(messages, n);
    }
  }

  lemma FtsCheckComplete(messages: seq<Message>, fts: map<RowId, FtsRow>)
    requires NoDup(MessageIds(messages)) && FtsExact(messages, fts)
    ensures |Named(fts)| == |fts| == |WithText(messages)|
  {
    TextIdsFacts(messages);
    NamedInjective(fts);
    TextsAreNamed(messages, fts);
    NamedAreTexts(messages, fts);
    assert OneRowEach(fts);
    hide *;
    assert Named(fts) == TextIds(messages);
  }

  lemma TextsAreNamed(messages: seq<Message>, fts: map<RowId, FtsRow>)
    requires NoDup(MessageIds(messages)) && FtsExact(messages, fts)
    ensures TextIds(messages) <= Named(fts)
  {
    TextIdsFacts(messages);
    hide NoDup, MessageIds, TextIds;
    hide OneRowEach;
    forall id | id in TextIds(messages) ensures id in Named(fts) {
      var m :| m in messages && m.text.Some? && m.id == id;
      assert HasRow(fts, m);
    }
  }

  lemma NamedAreTexts(messages: seq<Message>, fts: map<RowId, FtsRow>)
    requires NoDup(MessageIds(messages)) && FtsExact(messages, fts)
    ensures Named(fts) <= TextIds(messages)
  {
    TextIdsFacts(messages);
    hide NoDup, MessageIds, TextIds;
    hide OneRowEach;
    forall id | id in Named(fts) ensures id in TextIds(messages) {
      var r :| r in fts && fts[r].messageId == id;
      assert Holds(messages, fts[r]);
    }
  }

  lemma CompactRowMeaning(messages: seq<Message>, fts: map<RowId, FtsRow>, r: RowId, row: CompactRow)
    requires NoDup(MessageIds(messages)) && r in fts && Holds(messages, fts[r])
    ensures CompactRowOk(messages, fts, r, row) <==> Repeats(messages, fts[r], row)
  {
    var n :| n in messages && fts[r] == RowOf(n) && n.text.Some?;
    FindUnique(messages, n);
    FindFacts(messages, row.messageId);
    if Repeats(messages, fts[r], row) {
      var m :| m in messages && fts[r].messageId == m.id && row == CompactRow(m.id, m.history, m.seqNo);
      FindUnique(messages, m);
    }
  }

  predicate CompactMatches(messages: seq<Message>, t: Tables) {
    |t.compact| == |WithText(messages)| && forall r :: r in t.compact ==> CompactRowOk(messages, t.fts, r, t.compact[r])
  }

  lemma CompactCheckExact(messages: seq<Message>, t: Tables)
    requires NoDup(MessageIds(messages)) && AllHold(messages, t.fts) && |t.fts| == |WithText(messages)|
    ensures CompactMatches(messages, t) <==> CompactExact(messages, t)
  {
    forall r | r in t.compact && r in t.fts
      ensures CompactRowOk(messages, t.fts, r, t.compact[r]) <==> Repeats(messages, t.fts[r], t.compact[r])
    {
      CompactRowMeaning(messages, t.fts, r, t.compact[r]);
    }
    forall r | r in t.compact && CompactRowOk(messages, t.fts, r, t.compact[r]) ensures r in t.fts {}
    hide CompactRowOk, Repeats, Holds, WithText, NoDup, MessageIds;
    if CompactMatches(messages, t) {
      assert t.compact.Keys <= t.fts.Keys;
      SubsetFull(t.compact.Keys, t.fts.Keys);
    }
    if CompactExact(messages, t) {
      assert |t.compact.Keys| == |t.fts.Keys|;
    }
  }

  /** The maintenance check accepts exactly the states whose derived tables mirror the messages. */
  lemma ValidationIsExact(history: string, messages: seq<Message>, t: Tables)
    requires NoDup(MessageIds(messages))
    ensures Validates(history, messages, t) <==>
            InStep(messages, t) && forall m :: m in messages ==> m.history == history && 1 <= m.seqNo
  {
    FtsCheckExact(messages, t.fts);
    if FtsExact(messages, t.fts) {
      FtsCheckComplete(messages, t.fts);
      CompactCheckExact(messages, t);
    }
  }
}
