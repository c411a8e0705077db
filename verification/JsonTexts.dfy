/** Values written as JSON (RFC 8259), and that every object is written as an object text. */
module JsonTexts {
  import opened JsonLines

  datatype Value = Text(chars: string) | Other(text: string) | List(items: Items) | Object(fields: Fields)

  datatype Items = NoItems | Item(head: Value, rest: Items)

  datatype Fields = NoFields | Field(name: string, value: Value, others: Fields)

  /** How a writer separates items and names from values, and writes one character of a string. */
  datatype Style = Style(comma: string, colon: string, escape: char -> string)

  /** A text without quotes, brackets or braces: a number, a literal name, a separator or white space. */
  ghost predicate Bare(text: string) {
    forall i :: 0 <= i < |text| ==> text[i] !in {'"', '{', '}', '[', ']'}
  }

  /** A character that stands for itself (section 7 of RFC 8259). */
  predicate Unescaped(c: char) {
    c != '"' && c != '\\'
  }

  /** One character of a string: itself, or a backslash, a letter and perhaps digits. */
  ghost predicate EscapesOne(written: string) {
    || (|written| == 1 && Unescaped(written[0]))
    || (|written| >= 2 && written[0] == '\\' && forall i :: 2 <= i < |written| ==> Unescaped(written[i]))
  }

  ghost predicate Proper(st: Style) {
    Bare(st.comma) && Bare(st.colon) && forall c :: EscapesOne(st.escape(c))
  }

  ghost predicate WellFormed(v: Value) {
    match v
    case Text(_) => true
    case Other(text) => Bare(text)
    case List(items) => AllWellFormed(items)
    case Object(fields) => FieldsWellFormed(fields)
  }

  ghost predicate AllWellFormed(items: Items) {
    items.Item? ==> WellFormed(items.head) && AllWellFormed(items.rest)
  }

  ghost predicate FieldsWellFormed(fields: Fields) {
    fields.Field? ==> WellFormed(fields.value) && FieldsWellFormed(fields.others)
  }

  function Inside(st: Style, chars: string): string {
    if chars == "" then "" else st.escape(chars[0]) + Inside(st, chars[1..])
  }

  function Quoted(st: Style, chars: string): string {
    "\"" + Inside(st, chars) + "\""
  }

  function Write(st: Style, v: Value): string {
    match v
    case Text(chars) => Quoted(st, chars)
    case Other(text) => text
    case List(items) => "[" + WriteItems(st, items) + "]"
    case Object(fields) => "{" + WriteFields(st, fields) + "}"
  }

  function WriteItems(st: Style, items: Items): string {
    match items
    case NoItems => ""
    case Item(head, NoItems) => Write(st, head)
    case Item(head, rest) => Write(st, head) + (st.comma + WriteItems(st, rest))
  }

  function WriteFields(st: Style, fields: Fields): string {
    match fields
    case NoFields => ""
    case Field(name, value, NoFields) => Quoted(st, name) + (st.colon + Write(st, value))
    case Field(name, value, others) =>
      Quoted(st, name) + (st.colon + (Write(st, value) + (st.comma + WriteFields(st, others))))
  }

  // ---------------------------------------------------------------- scanning from anywhere

  function ScanFrom(s: Scan, text: string): Scan {
    if text == "" then s else Step(ScanFrom(s, text[..|text|-1]), text[|text|-1])
  }

  function Depth(s: Scan): int {
    s.depth
  }

  lemma {:induction false} ScanJoin(s: Scan, a: string, b: string)
    ensures ScanFrom(s, a + b) == ScanFrom(ScanFrom(s, a), b)
  {
    if b == "" {
      assert a + b == a;
    } else {
      var init := b[..|b|-1];
      assert (a + b)[..|a + b|-1] == a + init;
      ScanJoin(s, a, init);
    }
  }

  /** A text that leaves the reader where it was, never below that depth. */
  ghost predicate Keeps(text: string, d: int) {
    ScanFrom(Among(d), text) == Among(d) && AtLeast(Among(d), text, d)
  }

  ghost predicate AtLeast(s: Scan, text: string, d: int) {
    forall n :: 0 <= n <= |text| ==> Depth(ScanFrom(s, text[..n])) >= d
  }

  lemma AtLeastJoin(s: Scan, a: string, b: string, d: int)
    requires AtLeast(s, a, d) && AtLeast(ScanFrom(s, a), b, d)
    ensures AtLeast(s, a + b, d)
  {
    forall n | 0 <= n <= |a + b| ensures Depth(ScanFrom(s, (a + b)[..n])) >= d {
      if n <= |a| {
        assert (a + b)[..n] == a[..n];
      } else {
        assert (a + b)[..n] == a + b[..n - |a|];
        ScanJoin(s, a, b[..n - |a|]);
      }
    }
  }

  lemma KeepsJoin(a: string, b: string, d: int)
    requires Keeps(a, d) && Keeps(b, d)
    ensures Keeps(a + b, d)
  {
    ScanJoin(Among(d), a, b);
    AtLeastJoin(Among(d), a, b, d);
  }

  lemma {:induction false} BareKeeps(text: string, d: int)
    requires Bare(text)
    ensures Keeps(text, d)
  {
    if text != "" {
      var init := text[..|text|-1];
      BareKeeps(init, d);
      assert text == init + [text[|text|-1]];
      assert Step(Among(d), text[|text|-1]) == Among(d);
      OneStep(Among(d), init, text[|text|-1], d);
    }
  }

  /** One more character. */
  lemma OneStep(s: Scan, init: string, c: char, d: int)
    requires AtLeast(s, init, d) && Depth(Step(ScanFrom(s, init), c)) >= d
    ensures AtLeast(s, init + [c], d) && ScanFrom(s, init + [c]) == Step(ScanFrom(s, init), c)
  {
    var text := init + [c];
    assert text[..|init|] == init;
    forall n | 0 <= n <= |text| ensures Depth(ScanFrom(s, text[..n])) >= d {
      if n <= |init| { assert text[..n] == init[..n]; } else { assert text[..n] == text; }
    }
  }

  lemma StartsAtLeast(s: Scan)
    ensures AtLeast(s, "", Depth(s))
  {}

  // ---------------------------------------------------------------- strings

  lemma {:induction false} PlainInside(text: string, from: nat, d: int)
    requires from <= |text| && forall i :: from <= i < |text| ==> Unescaped(text[i])
    requires ScanFrom(InString(d), text[..from]) == InString(d) && AtLeast(InString(d), text[..from], d)
    ensures ScanFrom(InString(d), text) == InString(d) && AtLeast(InString(d), text, d)
    decreases |text| - from
  {
    if from == |text| {
      assert text[..from] == text;
    } else {
      OneStep(InString(d), text[..from], text[from], d);
      assert text[..from] + [text[from]] == text[..from + 1];
      PlainInside(text, from + 1, d);
    }
  }

  lemma EscapedInside(written: string, d: int)
    requires EscapesOne(written)
    ensures ScanFrom(InString(d), written) == InString(d) && AtLeast(InString(d), written, d)
  {
    StartsAtLeast(InString(d));
    if |written| == 1 {
      assert written[..0] == "";
      PlainInside(written, 0, d);
    } else {
      OneStep(InString(d), "", '\\', d);
      OneStep(InString(d), "" + ['\\'], written[1], d);
      assert "" + ['\\'] + [written[1]] == written[..2];
      PlainInside(written, 2, d);
    }
  }

  lemma {:induction false} InsideStays(st: Style, chars: string, d: int)
    requires Proper(st)
    ensures ScanFrom(InString(d), Inside(st, chars)) == InString(d) && AtLeast(InString(d), Inside(st, chars), d)
  {
    if chars == "" {
      StartsAtLeast(InString(d));
    } else {
      var a, b := st.escape(chars[0]), Inside(st, chars[1..]);
      EscapedInside(a, d);
      InsideStays(st, chars[1..], d);
      ScanJoin(InString(d), a, b);
      AtLeastJoin(InString(d), a, b, d);
    }
  }

  lemma QuotedKeeps(st: Style, chars: string, d: int)
    requires Proper(st)
    ensures Keeps(Quoted(st, chars), d)
  {
    var inside := Inside(st, chars);
    StartsAtLeast(Among(d));
    OneStep(Among(d), "", '"', d);
    assert "" + ['"'] == "\"";
    InsideStays(st, chars, d);
    ScanJoin(Among(d), "\"", inside);
    AtLeastJoin(Among(d), "\"", inside, d);
    OneStep(Among(d), "\"" + inside, '"', d);
  }

  // ---------------------------------------------------------------- brackets

  /** Brackets around a text that keeps to its depth: back where it began, and deeper all the way between. */
  lemma Bracketed(open: char, inside: string, close: char, d: int)
    requires (open == '{' && close == '}') || (open == '[' && close == ']')
    requires Keeps(inside, d + 1)
    ensures Keeps([open] + inside + [close], d)
    ensures forall n :: 0 < n < |inside| + 2 ==> Depth(ScanFrom(Among(d), ([open] + inside + [close])[..n])) > d
  {
    StartsAtLeast(Among(d));
    OneStep(Among(d), "", open, d);
    assert "" + [open] == [open];
    assert ScanFrom(Among(d), [open]) == Among(d + 1);
    ScanJoin(Among(d), [open], inside);
    AtLeastLower(Among(d + 1), inside, d + 1, d);
    AtLeastJoin(Among(d), [open], inside, d);
    OneStep(Among(d), [open] + inside, close, d);
    var text := [open] + inside + [close];
    forall n | 0 < n < |inside| + 2 ensures Depth(ScanFrom(Among(d), text[..n])) > d {
      assert text[..n] == [open] + inside[..n-1];
      ScanJoin(Among(d), [open], inside[..n-1]);
    }
  }

  lemma AtLeastLower(s: Scan, text: string, d: int, e: int)
    requires AtLeast(s, text, d) && e <= d
    ensures AtLeast(s, text, e)
  {}

  lemma {:induction false} WrittenKeeps(st: Style, v: Value, d: int)
    requires Proper(st) && WellFormed(v)
    ensures Keeps(Write(st, v), d)
    decreases v
  {
    match v
    case Text(chars) => QuotedKeeps(st, chars, d);
    case Other(text) => BareKeeps(text, d);
    case List(items) =>
      ItemsKeep(st, items, d + 1);
      Bracketed('[', WriteItems(st, items), ']', d);
    case Object(fields) =>
      FieldsKeep(st, fields, d + 1);
      Bracketed('{', WriteFields(st, fields), '}', d);
  }

  lemma {:induction false} ItemsKeep(st: Style, items: Items, d: int)
    requires Proper(st) && AllWellFormed(items)
    ensures Keeps(WriteItems(st, items), d)
    decreases items
  {
    if items.NoItems? {
      StartsAtLeast(Among(d));
    } else {
      WrittenKeeps(st, items.head, d);
      if items.rest.Item? {
        ItemsKeep(st, items.rest, d);
        BareKeeps(st.comma, d);
        KeepsJoin(st.comma, WriteItems(st, items.rest), d);
        KeepsJoin(Write(st, items.head), st.comma + WriteItems(st, items.rest), d);
      }
    }
  }

  lemma {:induction false} FieldsKeep(st: Style, fields: Fields, d: int)
    requires Proper(st) && FieldsWellFormed(fields)
    ensures Keeps(WriteFields(st, fields), d)
    decreases fields
  {
    if fields.NoFields? {
      StartsAtLeast(Among(d));
    } else {
      var name, value := Quoted(st, fields.name), Write(st, fields.value);
      hide Keeps, Proper;
      QuotedKeeps(st, fields.name, d);
      WrittenKeeps(st, fields.value, d);
      SeparatorsKeep(st, d);
      if fields.others.NoFields? {
        KeepsJoin(st.colon, value, d);
        KeepsJoin(name, st.colon + value, d);
      } else {
        var more := st.comma + WriteFields(st, fields.others);
        FieldsKeep(st, fields.others, d);
        KeepsJoin(st.comma, WriteFields(st, fields.others), d);
        KeepsJoin(value, more, d);
        KeepsJoin(st.colon, value + more, d);
        KeepsJoin(name, st.colon + (value + more), d);
      }
    }
  }

  lemma SeparatorsKeep(st: Style, d: int)
    requires Proper(st)
    ensures Keeps(st.comma, d) && Keeps(st.colon, d)
  {
    BareKeeps(st.comma, d);
    BareKeeps(st.colon, d);
  }

  // ---------------------------------------------------------------- objects

  lemma {:induction false} ScanAllIs(text: string)
    ensures ScanAll(text) == ScanFrom(Among(0), text)
  {
    if text != "" { ScanAllIs(text[..|text|-1]); }
  }

  /** Every object, whatever is in its strings and however deep it is, is written as an object text. */
  lemma ObjectsAreObjectTexts(st: Style, v: Value)
    requires Proper(st) && WellFormed(v) && v.Object?
    ensures ObjectText(Write(st, v))
  {
    var inside, text := WriteFields(st, v.fields), Write(st, v);
    FieldsKeep(st, v.fields, 1);
    Bracketed('{', inside, '}', 0);
    assert text == ['{'] + inside + ['}'];
    ScanAllIs(text);
    forall n | 0 < n < |text| ensures ScanAll(text[..n]) != Among(0) { ScanAllIs(text[..n]); }
  }
}
