/** Export and import of a whole history (packages/python/src/cci/export.py, import_history.py). */
module Transfer {
  import opened Wrappers
  import opened Sequences
  import opened Records
  import opened SearchIndex
  import opened Transactions
  import opened StoreInvariants
  import opened JsonLines
  import PublishInvariants

  const VERSION: nat := 1

  /** What a line parses as; a record may lack some of its fields. */
  datatype Parsed = MessageRecord(record: Message, complete: bool)
                  | Manifest(version: nat, history: string, count: nat, checksum: string)
                  | OtherJson | NotJson

  /** Writing and reading single lines.  A digest is modelled by the very text it was computed over. */
  datatype Codec = Codec(write: Message -> string, writeManifest: (nat, string, nat, string) -> string,
                         parse: string -> Parsed, blank: string -> bool)

  /** A record names no history. */
  ghost predicate Anonymous(m: Message) {
    m.history == ""
  }

  /**
   * What any reading and writing of JSON gives: a record or manifest is written as an object text that
   * reads back as itself, only object texts read as records, white space around them does not matter, and
   * a line with an object is not blank.
   */
  ghost predicate Json(c: Codec) {
    && (forall m :: Anonymous(m) ==> ObjectText(c.write(m)) && c.parse(c.write(m)) == MessageRecord(m, true))
    && (forall v, h, n, t ::
          ObjectText(c.writeManifest(v, h, n, t)) && c.parse(c.writeManifest(v, h, n, t)) == Manifest(v, h, n, t))
    && (forall line :: c.parse(line).MessageRecord? ==> ObjectText(Strip(line)))
    && (forall line :: c.parse(line) == c.parse(Strip(line)))
    && (forall line :: ObjectText(Strip(line)) ==> !c.blank(line))
  }

  function BySeq(): Message -> int {
    (m: Message) => m.seqNo
  }

  /** The record of a message: everything but the history it belongs to. */
  function RecordOf(m: Message): Message {
    m.(history := "")
  }

  function RecordsOf(messages: seq<Message>): (r: seq<Message>)
    ensures |r| == |messages|
  {
    seq(|messages|, i requires 0 <= i < |messages| => RecordOf(messages[i]))
  }

  function MessageLines(c: Codec, records: seq<Message>): (r: seq<string>)
    ensures |r| == |records|
  {
    seq(|records|, i requires 0 <= i < |records| => c.write(records[i]))
  }

  /** The records in sequence order. */
  function ExportedRecords(db: Db): seq<Message> {
    RecordsOf(SortBy(BySeq(), db.messages))
  }

  /** The records in sequence order, and the manifest over their concatenation. */
  function Export(c: Codec, db: Db): seq<string> {
    var body := MessageLines(c, ExportedRecords(db));
    body + [c.writeManifest(VERSION, db.history, |db.messages|, Concat(body))]
  }

  method ExportHistory(c: Codec, db: Db) returns (lines: seq<string>)
    ensures lines == Export(c, db)
  {
    var rows := SortBy(BySeq(), db.messages);
    SortByFacts(BySeq(), db.messages);
    lines := [];
    var digested := "";
    for i := 0 to |rows|
      invariant lines == MessageLines(c, RecordsOf(rows[..i])) && digested == Concat(lines)
    {
      var line := c.write(RecordOf(rows[i]));
      ConcatSnoc(lines, line);
      digested := digested + line;
      lines := lines + [line];
    }
    assert rows[..|rows|] == rows;
    lines := lines + [c.writeManifest(VERSION, db.history, |rows|, digested)];
  }

  // ---------------------------------------------------------------- reading a file

  function NonBlank(c: Codec, lines: seq<string>): seq<string> {
    if lines == [] then []
    else NonBlank(c, lines[..|lines|-1]) + (if c.blank(lines[|lines|-1]) then [] else [lines[|lines|-1]])
  }

  /** The records of the message lines, or nothing when one is not a complete record. */
  function ReadBody(c: Codec, lines: seq<string>): Option<seq<Message>> {
    if lines == [] then Some([])
    else
      var init, last := ReadBody(c, lines[..|lines|-1]), c.parse(lines[|lines|-1]);
      if init.Some? && last.MessageRecord? && last.complete then Some(init.value + [last.record]) else None
  }

  function Read(c: Codec, file: seq<string>): Result<seq<Message>, Error> {
    var lines := NonBlank(c, file);
    if lines == [] then Err(InvalidInput)
    else
      var body, manifest := lines[..|lines|-1], c.parse(lines[|lines|-1]);
      if !manifest.Manifest? || manifest.version != VERSION then Err(InvalidInput)
      else
        var records := ReadBody(c, body);
        if records.None? || manifest.count != |records.value| || manifest.checksum != Concat(body) then
          Err(InvalidInput)
        else Ok(records.value)
  }

  method ReadRecords(c: Codec, file: seq<string>) returns (r: Result<seq<Message>, Error>)
    ensures r == Read(c, file)
  {
    var lines: seq<string> := [];
    for i := 0 to |file|
      invariant lines == NonBlank(c, file[..i])
    {
      assert file[..i+1][..i] == file[..i];
      if !c.blank(file[i]) {
        lines := lines + [file[i]];
      }
    }
    assert file[..|file|] == file;
    if lines == [] {
      return Err(InvalidInput);
    }
    var body, manifest := lines[..|lines|-1], c.parse(lines[|lines|-1]);
    if !manifest.Manifest? || manifest.version != VERSION {
      return Err(InvalidInput);
    }
    var digested := "";
    var records: seq<Message> := [];
    for i := 0 to |body|
      invariant ReadBody(c, body[..i]) == Some(records) && digested == Concat(body[..i])
    {
      assert body[..i+1][..i] == body[..i] && body[..i+1] == body[..i] + [body[i]];
      ConcatSnoc(body[..i], body[i]);
      digested := digested + body[i];
      var record := c.parse(body[i]);
      if !record.MessageRecord? || !record.complete {
        BadLine(c, body, i);
        return Err(InvalidInput);
      }
      records := records + [record.record];
    }
    assert body[..|body|] == body;
    if manifest.count != |records| || manifest.checksum != digested {
      return Err(InvalidInput);
    }
    return Ok(records);
  }

  lemma {:induction false} BadLine(c: Codec, body: seq<string>, i: nat)
    requires i < |body| && (!c.parse(body[i]).MessageRecord? || !c.parse(body[i]).complete)
    ensures ReadBody(c, body).None?
  {
    if i < |body| - 1 { BadLine(c, body[..|body|-1], i); }
  }

  lemma {:induction false} NonBlankSame(c: Codec, lines: seq<string>)
    requires NoBlanks(c, lines)
    ensures NonBlank(c, lines) == lines
  {
    if lines != [] {
      var init, last := lines[..|lines|-1], lines[|lines|-1];
      assert lines == init + [last];
      NoBlanksUnsnoc(c, init, last);
      NonBlankSame(c, init);
    }
  }

  ghost predicate NoBlanks(c: Codec, lines: seq<string>) {
    forall i :: 0 <= i < |lines| ==> !c.blank(lines[i])
  }

  lemma NoBlanksUnsnoc(c: Codec, init: seq<string>, last: string)
    ensures NoBlanks(c, init + [last]) <==> NoBlanks(c, init) && !c.blank(last)
  {
    var all := init + [last];
    assert forall i :: 0 <= i < |init| ==> all[i] == init[i];
    assert all[|init|] == last;
  }

  ghost predicate AllAnonymous(records: seq<Message>) {
    forall i :: 0 <= i < |records| ==> Anonymous(records[i])
  }

  lemma WrittenRecord(c: Codec, m: Message)
    requires Json(c) && Anonymous(m)
    ensures ObjectText(c.write(m)) && Strip(c.write(m)) == c.write(m) && !c.blank(c.write(m))
    ensures c.parse(c.write(m)) == MessageRecord(m, true)
  {
    hide ObjectText;
    ObjectIsTight(c.write(m));
    ObjectNonEmpty(c.write(m));
    StripTight(c.write(m));
  }

  lemma WrittenManifest(c: Codec, v: nat, h: string, n: nat, t: string)
    requires Json(c)
    ensures !c.blank(c.writeManifest(v, h, n, t)) && c.parse(c.writeManifest(v, h, n, t)) == Manifest(v, h, n, t)
  {
    hide ObjectText;
    ObjectIsTight(c.writeManifest(v, h, n, t));
    ObjectNonEmpty(c.writeManifest(v, h, n, t));
    StripTight(c.writeManifest(v, h, n, t));
  }

  /** What is read from lines of records, in order. */
  lemma {:induction false} ReadBodyIs(c: Codec, lines: seq<string>)
    ensures ReadBody(c, lines).Some? <==>
              forall i :: 0 <= i < |lines| ==> c.parse(lines[i]).MessageRecord? && c.parse(lines[i]).complete
    ensures ReadBody(c, lines).Some? ==>
              && |ReadBody(c, lines).value| == |lines|
              && forall i :: 0 <= i < |lines| ==> c.parse(lines[i]) == MessageRecord(ReadBody(c, lines).value[i], true)
  {
    if lines != [] {
      var init, last := lines[..|lines|-1], lines[|lines|-1];
      ReadBodyIs(c, init);
      assert forall i :: 0 <= i < |init| ==> lines[i] == init[i];
    }
  }

  /** The lines that are not blank, in order. */
  ghost predicate NonBlankLines(c: Codec, file: seq<string>, lines: seq<string>) {
    exists at :: NonBlankAt(c, file, at) && LinesAt(file, at, lines)
  }

  ghost predicate NonBlankAt(c: Codec, file: seq<string>, at: seq<nat>) {
    Rising(at) && forall i: nat :: i in at <==> i < |file| && !c.blank(file[i])
  }

  ghost predicate LinesAt(file: seq<string>, at: seq<nat>, lines: seq<string>) {
    |lines| == |at| && forall k :: 0 <= k < |at| ==> at[k] < |file| && lines[k] == file[at[k]]
  }

  lemma {:induction false} NonBlankIs(c: Codec, file: seq<string>) returns (at: seq<nat>)
    ensures NonBlankAt(c, file, at) && LinesAt(file, at, NonBlank(c, file))
  {
    if file == [] {
      at := [];
    } else {
      var n := |file| - 1;
      at := NonBlankIs(c, file[..n]);
      hide NonBlankAt;
      LinesMore(file, at, NonBlank(c, file[..n]));
      NonBlankMore(c, file, at);
      if !c.blank(file[n]) { at := at + [n]; }
    }
  }

  lemma LinesMore(file: seq<string>, at: seq<nat>, lines: seq<string>)
    requires file != [] && LinesAt(file[..|file|-1], at, lines)
    ensures LinesAt(file, at, lines) && LinesAt(file, at + [|file|-1], lines + [file[|file|-1]])
  {}

  lemma NonBlankMore(c: Codec, file: seq<string>, at: seq<nat>)
    requires file != [] && NonBlankAt(c, file[..|file|-1], at)
    ensures NonBlankAt(c, file, if c.blank(file[|file|-1]) then at else at + [|file|-1])
  {
    RisingMore(at, |file| - 1);
  }

  /** Complete records, then a manifest of this version over exactly their lines. */
  ghost predicate WellMade(c: Codec, lines: seq<string>, records: seq<Message>) {
    && |lines| == |records| + 1
    && (forall i :: 0 <= i < |records| ==> c.parse(lines[i]) == MessageRecord(records[i], true))
    && exists h :: c.parse(lines[|records|]) == Manifest(1, h, |records|, Concat(lines[..|records|]))
  }

  /** A file reads as these records exactly if its lines that are not blank are those records' and their manifest. */
  lemma ReadExactly(c: Codec, file: seq<string>, records: seq<Message>)
    ensures NonBlankLines(c, file, NonBlank(c, file))
    ensures Read(c, file) == Ok(records) <==> WellMade(c, NonBlank(c, file), records)
    ensures Read(c, file).Err? ==> Read(c, file) == Err(InvalidInput)
  {
    var at := NonBlankIs(c, file);
    var lines := NonBlank(c, file);
    hide NonBlank, ReadBody, Concat, NonBlankAt, LinesAt;
    if lines != [] {
      var body := lines[..|lines|-1];
      ReadBodyIs(c, body);
      if WellMade(c, lines, records) {
        assert body == lines[..|records|];
        assert ReadBody(c, body).value == records;
      }
    }
  }

  lemma ReadBodyOf(c: Codec, records: seq<Message>)
    requires Json(c) && AllAnonymous(records)
    ensures ReadBody(c, MessageLines(c, records)) == Some(records)
    ensures NoBlanks(c, MessageLines(c, records)) && ObjectLines(MessageLines(c, records))
  {
    var lines := MessageLines(c, records);
    forall i | 0 <= i < |lines|
      ensures !c.blank(lines[i]) && ObjectText(Strip(lines[i])) && c.parse(lines[i]) == MessageRecord(records[i], true)
    {
      assert Anonymous(records[i]);
      hide Json;
      WrittenRecord(c, records[i]);
    }
    hide Json, ObjectText;
    ReadBodyIs(c, lines);
    assert ReadBody(c, lines).value == records;
  }

  lemma RecordsAnonymous(messages: seq<Message>)
    ensures AllAnonymous(RecordsOf(messages))
  {}

  /** Reading back an export gives every record, in sequence order. */
  lemma ReadExport(c: Codec, db: Db)
    requires Json(c)
    ensures Read(c, Export(c, db)) == Ok(ExportedRecords(db))
  {
    SortByFacts(BySeq(), db.messages);
    var records := ExportedRecords(db);
    RecordsAnonymous(SortBy(BySeq(), db.messages));
    var body := MessageLines(c, records);
    var manifest := c.writeManifest(VERSION, db.history, |db.messages|, Concat(body));
    assert |records| == |db.messages|;
    hide Json, RecordsOf, SortBy;
    ReadBodyOf(c, records);
    WrittenManifest(c, VERSION, db.history, |db.messages|, Concat(body));
    NoBlanksUnsnoc(c, body, manifest);
    NonBlankSame(c, body + [manifest]);
    assert (body + [manifest])[..|body|] == body;
  }

  /** The file's manifest carries this checksum. */
  ghost predicate Certified(c: Codec, file: seq<string>, checksum: string) {
    var lines := NonBlank(c, file);
    lines != [] && c.parse(lines[|lines|-1]).Manifest? && c.parse(lines[|lines|-1]).checksum == checksum
  }

  /**
   * A file that is accepted holds exactly the records its manifest was made for: none dropped, altered,
   * added or moved.  The digest covers the lines' concatenation only; that object texts cannot be cut in
   * two ways makes it cover the lines.
   */
  lemma AcceptedFileIsIntact(c: Codec, file: seq<string>, records: seq<Message>)
    requires Json(c) && AllAnonymous(records) && Read(c, file).Ok?
    requires Certified(c, file, Concat(MessageLines(c, records)))
    ensures Read(c, file) == Ok(records)
  {
    hide *;
    var made := MessageLines(c, records);
    var body, found := AcceptedBody(c, file);
    ReadBodyIs(c, body);
    RecordLines(c, body);
    ReadBodyOf(c, records);
    CertifiedBy(c, file, Concat(made), body);
    ConcatIsInjective(body, made);
    ReadBodyIs(c, made);
    SameRecords(c, body, made, found, records);
  }

  /** The message lines of an accepted file, and the records read from them. */
  lemma AcceptedBody(c: Codec, file: seq<string>) returns (body: seq<string>, found: seq<Message>)
    requires Read(c, file).Ok?
    ensures Read(c, file) == Ok(found) && ReadBody(c, body) == Some(found)
    ensures NonBlank(c, file) != [] && body == NonBlank(c, file)[..|NonBlank(c, file)|-1]
    ensures Certified(c, file, Concat(body))
  {
    hide NonBlank, ReadBody, Concat;
    var lines := NonBlank(c, file);
    body, found := lines[..|lines|-1], Read(c, file).value;
  }

  lemma CertifiedBy(c: Codec, file: seq<string>, checksum: string, body: seq<string>)
    requires Certified(c, file, checksum) && Certified(c, file, Concat(body))
    ensures Concat(body) == checksum
  {
    hide NonBlank, Concat;
  }

  lemma RecordLines(c: Codec, lines: seq<string>)
    requires Json(c) && forall i :: 0 <= i < |lines| ==> c.parse(lines[i]).MessageRecord?
    ensures ObjectLines(lines)
  {
    hide ObjectText, Strip;
  }

  lemma SameRecords(c: Codec, a: seq<string>, b: seq<string>, r: seq<Message>, s: seq<Message>)
    requires Json(c) && SameObjects(a, b) && |r| == |a| && |s| == |b|
    requires forall i :: 0 <= i < |a| ==> c.parse(a[i]) == MessageRecord(r[i], true)
    requires forall i :: 0 <= i < |b| ==> c.parse(b[i]) == MessageRecord(s[i], true)
    ensures r == s
  {
    forall i | 0 <= i < |a| ensures r[i] == s[i] {
      StrippedParse(c, a[i], b[i]);
    }
  }

  lemma StrippedParse(c: Codec, a: string, b: string)
    requires Json(c) && Strip(a) == Strip(b)
    ensures c.parse(a) == c.parse(b)
  {
    hide ObjectText, Strip;
    assert c.parse(a) == c.parse(Strip(a)) && c.parse(b) == c.parse(Strip(b));
  }

  // ---------------------------------------------------------------- importing a file

  /** The target is checked for messages first, then the whole file is validated before any commit. */
  function ImportFile(c: Codec, db: Db, file: seq<string>): Imported {
    if db.messages != [] then Imported(db, Err(StoreNotEmpty))
    else
      var records := Read(c, file);
      if records.Err? then Imported(db, Err(records.error)) else Import(db, records.value)
  }

  function Renamed(history: string, records: seq<Message>): (r: seq<Message>)
    ensures |r| == |records|
  {
    seq(|records|, i requires 0 <= i < |records| => records[i].(history := history))
  }

  /** Clashing does not depend on the history. */
  lemma RenamedClashFree(history: string, records: seq<Message>)
    requires ClashFree(records)
    ensures ClashFree(Renamed(history, records))
  {
    var r := Renamed(history, records);
    forall i, j | 0 <= i < j < |r| ensures !Clashes(r[i], r[j]) {
      assert !Clashes(records[i], records[j]);
    }
  }

  lemma PrefixClashFree(messages: seq<Message>, n: nat)
    requires ClashFree(messages) && n <= |messages|
    ensures ClashFree(messages[..n])
  {}

  /** Inserting the next records of a clash-free list succeeds. */
  lemma {:induction false} InsertsAll(history: string, before: seq<Message>, records: seq<Message>, tables: Tables)
    requires ClashFree(before + Renamed(history, records))
    ensures InsertRecords(history, records, Contents(before, tables)).Some?
    ensures InsertRecords(history, records, Contents(before, tables)).value.messages ==
              before + Renamed(history, records)
    decreases |records|
  {
    hide Clashes;
    if records == [] {
      assert before + Renamed(history, records) == before;
    } else {
      var m, rest := records[0].(history := history), records[1..];
      var all := before + Renamed(history, records);
      assert Renamed(history, records) == [m] + Renamed(history, rest);
      assert all == (before + [m]) + Renamed(history, rest);
      assert all[|before|] == m;
      forall n | n in before ensures !Clashes(n, m) {
        var i :| 0 <= i < |before| && before[i] == n;
        assert all[i] == n;
      }
      var next := Insert(Contents(before, tables), m);
      InsertsAll(history, before + [m], rest, next.value.tables);
    }
  }

  /** Where an import stands: the target holds exactly the first `done` records, at the revision it expects. */
  ghost predicate Halfway(db: Db, records: seq<Message>, done: nat, expected: Option<nat>) {
    && done <= |records| && db.messages == Renamed(db.history, records[..done])
    && db.historyRevision == db.searchRevision
    && (if done == 0 then expected.None? || expected == Some(db.historyRevision)
        else expected == Some(db.historyRevision))
  }

  lemma RenamedSplit(history: string, records: seq<Message>, a: nat, b: nat)
    requires a <= b <= |records|
    ensures Renamed(history, records[..a]) + Renamed(history, records[a..b]) == Renamed(history, records[..b])
  {}

  function Upto(records: seq<Message>, done: nat): nat {
    if |records| - done <= IMPORT_BATCH_SIZE then |records| else done + IMPORT_BATCH_SIZE
  }

  /** One batch moves on by 500 records, or to the end; neither a conflict nor a constraint stops it. */
  lemma BatchMovesOn(db: Db, records: seq<Message>, done: nat, expected: Option<nat>)
    requires Halfway(db, records, done, expected) && ClashFree(records) && done < |records|
    ensures var batch := records[done..Upto(records, done)];
            && ImportBatch(db, batch, expected).Ok?
            && Halfway(ImportBatch(db, batch, expected).value, records, Upto(records, done),
                       Some(db.historyRevision + 1))
            && ImportBatch(db, batch, expected).value.history == db.history
  {
    var n := Upto(records, done);
    var batch := records[done..n];
    RenamedSplit(db.history, records, done, n);
    PrefixClashFree(records, n);
    RenamedClashFree(db.history, records[..n]);
    InsertsAll(db.history, db.messages, batch, db.tables);
    hide InsertRecords, ClashFree, MaxSeq, Renamed;
    if done == 0 { NothingRenamed(db.history, records); }
  }

  lemma NothingRenamed(history: string, records: seq<Message>)
    ensures Renamed(history, records[..0]) == []
  {}

  /** The stores committed by the remaining batches, in order. */
  function Trail(db: Db, records: seq<Message>, expected: Option<nat>): seq<Db>
    decreases |records|
  {
    var batch := if |records| <= IMPORT_BATCH_SIZE then records else records[..IMPORT_BATCH_SIZE];
    var step := ImportBatch(db, batch, expected);
    if step.Err? then []
    else if |records| <= IMPORT_BATCH_SIZE then [step.value]
    else [step.value] + Trail(step.value, records[IMPORT_BATCH_SIZE..], Some(db.historyRevision + 1))
  }

  /** How many batches `n` records make. */
  function Batches(n: nat): nat {
    (n + IMPORT_BATCH_SIZE - 1) / IMPORT_BATCH_SIZE
  }

  /** A target holding the first `n` records. */
  ghost predicate HoldsFirst(db: Db, history: string, records: seq<Message>, n: nat) {
    n <= |records| && db.messages == Renamed(history, records[..n])
  }

  /** Each commit after the first `done` records holds 500 more, until all are there. */
  ghost predicate Steadily(trail: seq<Db>, history: string, records: seq<Message>, done: nat) {
    forall k :: 0 <= k < |trail| ==>
        HoldsFirst(trail[k], history, records, Least(done + IMPORT_BATCH_SIZE * (k + 1), |records|))
  }

  lemma SteadilyCons(next: Db, trail: seq<Db>, history: string, records: seq<Message>, done: nat)
    requires HoldsFirst(next, history, records, Least(done + IMPORT_BATCH_SIZE, |records|))
    requires Steadily(trail, history, records, done + IMPORT_BATCH_SIZE)
    ensures Steadily([next] + trail, history, records, done)
  {
    hide HoldsFirst;
    var t := [next] + trail;
    forall k | 0 <= k < |t|
      ensures HoldsFirst(t[k], history, records, Least(done + IMPORT_BATCH_SIZE * (k + 1), |records|)) {
      if k > 0 {
        var j := k - 1;
        assert t[k] == trail[j];
        assert done + IMPORT_BATCH_SIZE + IMPORT_BATCH_SIZE * (j + 1) == done + IMPORT_BATCH_SIZE * (k + 1);
      }
    }
  }

  function Least(a: nat, b: nat): nat {
    if a < b then a else b
  }

  /**
   * From any halfway point the import runs to the end, and commit `k` of what remains holds 500 records more than the
   * one before.
   */
  lemma {:induction false} ImportRunsOn(db: Db, records: seq<Message>, done: nat, expected: Option<nat>)
    requires Halfway(db, records, done, expected) && ClashFree(records) && done < |records|
    ensures var r := ImportFrom(db, records[done..], expected, done);
            r.result == Ok(|records|) && HoldsFirst(r.db, db.history, records, |records|)
    ensures Steadily(Trail(db, records[done..], expected), db.history, records, done)
    ensures |Trail(db, records[done..], expected)| == Batches(|records| - done)
    decreases |records| - done
  {
    var rest, n := records[done..], Upto(records, done);
    var batch := if |rest| <= IMPORT_BATCH_SIZE then rest else rest[..IMPORT_BATCH_SIZE];
    assert batch == records[done..n];
    BatchMovesOn(db, records, done, expected);
    var next := ImportBatch(db, batch, expected).value;
    hide ImportBatch, ClashFree, Renamed, Steadily;
    if |rest| > IMPORT_BATCH_SIZE {
      assert rest[IMPORT_BATCH_SIZE..] == records[n..];
      ImportRunsOn(next, records, n, Some(db.historyRevision + 1));
      SteadilyCons(next, Trail(next, records[n..], Some(db.historyRevision + 1)), db.history, records, done);
    } else {
      assert records[..n] == records;
      NothingAfter(db.history, records, n);
      SteadilyCons(next, [], db.history, records, done);
      assert [next] + [] == [next];
    }
  }

  lemma NothingAfter(history: string, records: seq<Message>, n: nat)
    ensures Steadily([], history, records, n)
    ensures forall done: nat :: Steadily([], history, records, done)
  {}

  lemma RecordsClashFree(messages: seq<Message>)
    requires ClashFree(messages)
    ensures ClashFree(RecordsOf(messages))
  {
    var r := RecordsOf(messages);
    forall i, j | 0 <= i < j < |r| ensures !Clashes(r[i], r[j]) {
      assert !Clashes(messages[i], messages[j]);
    }
  }

  lemma SortedClashFree(messages: seq<Message>)
    requires ClashFree(messages)
    ensures ClashFree(SortBy(BySeq(), messages))
  {
    var sorted := SortBy(BySeq(), messages);
    SortByFacts(BySeq(), messages);
    PublishInvariants.ClashFreeNoDup(messages);
    SortByNoDup(BySeq(), messages);
    forall i, j | 0 <= i < j < |sorted| ensures !Clashes(sorted[i], sorted[j]) {
      assert sorted[i] in messages && sorted[j] in messages && sorted[i] != sorted[j];
      ClashFreePair(messages, sorted[i], sorted[j]);
    }
  }

  lemma ClashFreePair(messages: seq<Message>, a: Message, b: Message)
    requires ClashFree(messages) && a in messages && b in messages && a != b
    ensures !Clashes(a, b)
  {
    var i :| 0 <= i < |messages| && messages[i] == a;
    var j :| 0 <= j < |messages| && messages[j] == b;
    assert i < j ==> !Clashes(messages[i], messages[j]);
    assert j < i ==> !Clashes(messages[j], messages[i]);
  }

  /** The source's messages under the destination's identity, in sequence order. */
  function Carried(source: Db, history: string): seq<Message> {
    Renamed(history, SortBy(BySeq(), source.messages))
  }

  lemma RenamedRecords(history: string, messages: seq<Message>)
    ensures Renamed(history, RecordsOf(messages)) == Renamed(history, messages)
  {}

  /**
   * Exporting any history and importing the file into an empty store reproduces every message, in
   * order, under the destination's identity, with the search tables in step.  There is one commit for
   * every 500 records begun, and after the k-th the target holds exactly the first 500 k records.
   */
  lemma ExportImportRoundTrip(c: Codec, source: Db, target: Db, m: nat)
    requires Json(c) && DbOk(source, m) && DbOk(target, m) && target.messages == [] && source.messages != []
    ensures var r := ImportFile(c, target, Export(c, source));
            && r.result == Ok(|source.messages|) && r.db.messages == Carried(source, target.history)
            && InStep(r.db.messages, r.db.tables) && DbOk(r.db, m)
    ensures var trail := Trail(target, ExportedRecords(source), None);
            && |trail| == Batches(|source.messages|)
            && Steadily(trail, target.history, ExportedRecords(source), 0)
  {
    hide *;
    ReadExport(c, source);
    ImportOfRecords(c, source, target, Export(c, source), m);
  }

  /** Any file that reads as the source's records is imported as the source. */
  lemma ImportOfRecords(c: Codec, source: Db, target: Db, file: seq<string>, m: nat)
    requires DbOk(source, m) && DbOk(target, m) && target.messages == [] && source.messages != []
    requires Read(c, file) == Ok(ExportedRecords(source))
    ensures var r := ImportFile(c, target, file);
            && r.result == Ok(|source.messages|) && r.db.messages == Carried(source, target.history)
            && InStep(r.db.messages, r.db.tables) && DbOk(r.db, m)
    ensures var trail := Trail(target, ExportedRecords(source), None);
            && |trail| == Batches(|source.messages|)
            && Steadily(trail, target.history, ExportedRecords(source), 0)
  {
    var records := ExportedRecords(source);
    hide *;
    DbParts(source, m);
    DbParts(target, m);
    SourceRecords(source, m);
    StartsHalfway(target, records);
    assert records[0..] == records;
    ImportRunsOn(target, records, 0, None);
    ImportFileIs(c, target, file, records);
    ImportKeepsOk(target, records, m);
    CarriedIs(source, target.history, ImportFrom(target, records, None, 0).db);
    RowsInStep(ImportFrom(target, records, None, 0).db, m);
  }

  /**
   * Whatever was done to an exported file, as long as it still carries the export's checksum: importing it
   * into an empty store either commits nothing or reproduces the exported history exactly.
   */
  lemma TamperedFileImportsAllOrNothing(c: Codec, source: Db, target: Db, file: seq<string>, m: nat)
    requires Json(c) && DbOk(source, m) && DbOk(target, m) && target.messages == []
    requires Certified(c, file, Concat(MessageLines(c, ExportedRecords(source))))
    ensures var r := ImportFile(c, target, file);
            || r == Imported(target, Err(InvalidInput))
            || (r.result == Ok(|source.messages|) && r.db.messages == Carried(source, target.history))
  {
    hide *;
    if Read(c, file).Ok? {
      ExportedAnonymous(source);
      AcceptedFileIsIntact(c, file, ExportedRecords(source));
      if source.messages == [] {
        DbParts(target, m);
        NothingExported(source, target.history);
        ImportFileIs(c, target, file, []);
        EmptyImport(target);
      } else {
        ImportOfRecords(c, source, target, file, m);
      }
    } else {
      RefusedFile(c, target, file);
    }
  }

  lemma NothingExported(source: Db, history: string)
    requires source.messages == []
    ensures ExportedRecords(source) == [] && Carried(source, history) == []
  {}

  lemma ExportedAnonymous(source: Db)
    ensures AllAnonymous(ExportedRecords(source))
  {
    RecordsAnonymous(SortBy(BySeq(), source.messages));
  }

  lemma RefusedFile(c: Codec, db: Db, file: seq<string>)
    requires db.messages == [] && Read(c, file).Err?
    ensures ImportFile(c, db, file) == Imported(db, Err(InvalidInput))
  {
    hide NonBlank, ReadBody, Concat;
  }

  lemma SourceRecords(source: Db, m: nat)
    requires DbOk(source, m)
    ensures var records := ExportedRecords(source);
            ClashFree(records) && Numbered(records) && |records| == |source.messages|
  {
    SourceRows(source, m);
    assert ExportedRecords(source) == RecordsOf(SortBy(BySeq(), source.messages));
    hide *;
    DbParts(source, m);
    SortedClashFree(source.messages);
    RecordsClashFree(SortBy(BySeq(), source.messages));
    SortedFacts(source.messages);
    NumberedRecords(source.messages, source.highWater);
  }

  lemma SourceRows(db: Db, m: nat)
    requires DbOk(db, m)
    ensures ClashFree(db.messages)
  {}

  lemma SortedFacts(messages: seq<Message>)
    ensures |RecordsOf(SortBy(BySeq(), messages))| == |messages|
  {
    SortByFacts(BySeq(), messages);
  }

  lemma NumberedRecords(messages: seq<Message>, highWater: nat)
    requires SeqsWithin(messages, highWater)
    ensures Numbered(RecordsOf(SortBy(BySeq(), messages)))
  {
    SortByFacts(BySeq(), messages);
    var sorted := SortBy(BySeq(), messages);
    forall r | r in RecordsOf(sorted) ensures r.seqNo >= 1 {
      var i :| 0 <= i < |sorted| && RecordsOf(sorted)[i] == r;
      assert sorted[i] in messages;
    }
  }

  lemma StartsHalfway(db: Db, records: seq<Message>)
    requires db.messages == [] && db.historyRevision == db.searchRevision
    ensures Halfway(db, records, 0, None)
  {}

  lemma ImportFileIs(c: Codec, db: Db, file: seq<string>, records: seq<Message>)
    requires db.messages == [] && Read(c, file) == Ok(records)
    ensures ImportFile(c, db, file) == ImportFrom(db, records, None, 0)
            && Import(db, records) == ImportFrom(db, records, None, 0)
  {
    hide Read, ImportFrom;
  }

  lemma CarriedIs(source: Db, history: string, db: Db)
    requires HoldsFirst(db, history, ExportedRecords(source), |source.messages|)
    requires |ExportedRecords(source)| == |source.messages|
    ensures db.messages == Carried(source, history)
  {
    var records := ExportedRecords(source);
    assert records[..|records|] == records;
    RenamedRecords(history, SortBy(BySeq(), source.messages));
  }

  lemma RowsInStep(db: Db, m: nat)
    requires DbOk(db, m)
    ensures InStep(db.messages, db.tables)
  {
    hide TreeOk, ReceiptsOk;
  }

  /** An empty history round-trips to an empty history, with no revision spent. */
  lemma EmptyRoundTrip(c: Codec, source: Db, target: Db, m: nat)
    requires Json(c) && DbOk(source, m) && DbOk(target, m) && target.messages == [] && source.messages == []
    ensures ImportFile(c, target, Export(c, source)) == Imported(target, Ok(0))
  {
    assert ExportedRecords(source) == [];
    hide *;
    ReadExport(c, source);
    DbParts(target, m);
    ImportFileIs(c, target, Export(c, source), []);
    EmptyImport(target);
  }

  lemma EmptyImport(db: Db)
    requires db.messages == [] && db.historyRevision == db.searchRevision
    ensures ImportFrom(db, [], None, 0) == Imported(db, Ok(0))
  {}

  /** A second export of the imported history writes the same lines; only the manifest names another history. */
  lemma ReexportIsIdentical(c: Codec, source: Db, target: Db, m: nat)
    requires Json(c) && DbOk(source, m) && DbOk(target, m) && target.messages == [] && source.messages != []
    ensures var db := ImportFile(c, target, Export(c, source)).db;
            var body := MessageLines(c, ExportedRecords(source));
            && |db.messages| == |source.messages|
            && Export(c, source) == body + [c.writeManifest(VERSION, source.history, |source.messages|, Concat(body))]
            && Export(c, db) == body + [c.writeManifest(VERSION, db.history, |source.messages|, Concat(body))]
  {
    hide *;
    ExportImportRoundTrip(c, source, target, m);
    var db := ImportFile(c, target, Export(c, source)).db;
    ReexportOf(source, db, target.history);
    ExportIs(c, source);
    ExportIs(c, db);
  }

  lemma ExportIs(c: Codec, db: Db)
    ensures var body := MessageLines(c, ExportedRecords(db));
            Export(c, db) == body + [c.writeManifest(VERSION, db.history, |db.messages|, Concat(body))]
  {
    hide MessageLines, ExportedRecords, Concat;
  }

  lemma ReexportOf(source: Db, db: Db, history: string)
    requires db.messages == Carried(source, history)
    ensures ExportedRecords(db) == ExportedRecords(source) && |db.messages| == |source.messages|
  {
    var sorted := SortBy(BySeq(), source.messages);
    SortByFacts(BySeq(), source.messages);
    CarriedSorted(sorted, history);
    SortBySorted(BySeq(), db.messages);
    RenamedForgotten(history, sorted);
    hide SortBy, RecordsOf, Renamed;
  }

  lemma CarriedSorted(sorted: seq<Message>, history: string)
    requires SortedBy(BySeq(), sorted)
    ensures SortedBy(BySeq(), Renamed(history, sorted))
  {
    var r := Renamed(history, sorted);
    forall i, j | 0 <= i < j < |r| ensures BySeq()(r[i]) <= BySeq()(r[j]) {
      assert BySeq()(sorted[i]) <= BySeq()(sorted[j]);
    }
  }

  lemma RenamedForgotten(history: string, messages: seq<Message>)
    ensures RecordsOf(Renamed(history, messages)) == RecordsOf(messages)
  {}
}
