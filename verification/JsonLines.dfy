/**
 * Lines that each hold one JSON object (RFC 8259), and why their concatenation, with nothing between
 * them, still tells them apart.
 */
module JsonLines {
  /** White space around a JSON text (section 2 of RFC 8259). */
  predicate Space(c: char) {
    c == ' ' || c == '\t' || c == '\n' || c == '\r'
  }

  predicate AllSpace(text: string) {
    forall i :: 0 <= i < |text| ==> Space(text[i])
  }

  /** Where a reader of a JSON text is: among its brackets, in a string, or after a backslash in one. */
  datatype Scan = Among(depth: int) | InString(depth: int) | Escaped(depth: int)

  function Step(s: Scan, c: char): Scan {
    match s
    case Among(d) =>
      if c == '"' then InString(d)
      else if c == '{' || c == '[' then Among(d + 1)
      else if c == '}' || c == ']' then Among(d - 1)
      else s
    case InString(d) => if c == '\\' then Escaped(d) else if c == '"' then Among(d) else s
    case Escaped(d) => InString(d)
  }

  function ScanAll(text: string): Scan {
    if text == "" then Among(0) else Step(ScanAll(text[..|text|-1]), text[|text|-1])
  }

  /** A text that opens a brace and closes its last bracket with its last character: any JSON object. */
  ghost predicate ObjectText(text: string) {
    && text != "" && text[0] == '{' && ScanAll(text) == Among(0)
    && forall n :: 0 < n < |text| ==> ScanAll(text[..n]) != Among(0)
  }

  /** No object text begins another. */
  lemma ObjectsPrefixFree(a: string, b: string)
    requires ObjectText(a) && ObjectText(b) && a <= b
    ensures a == b
  {
    assert b[..|a|] == a;
  }

  /** An object text neither begins nor ends with white space. */
  lemma ObjectIsTight(text: string)
    requires ObjectText(text)
    ensures !Space(text[0]) && !Space(text[|text|-1])
  {
    if |text| > 1 {
      assert ScanAll(text[..|text|-1]) != Among(0);
    }
  }

  function StripLeft(text: string): string {
    if text == "" || !Space(text[0]) then text else StripLeft(text[1..])
  }

  function StripRight(text: string): string {
    if text == "" || !Space(text[|text|-1]) then text else StripRight(text[..|text|-1])
  }

  function Strip(line: string): string {
    StripRight(StripLeft(line))
  }

  lemma {:induction false} StripLeftSplits(text: string) returns (pre: string)
    ensures text == pre + StripLeft(text) && AllSpace(pre)
  {
    if text == "" || !Space(text[0]) {
      pre := "";
    } else {
      var rest := StripLeftSplits(text[1..]);
      pre := [text[0]] + rest;
      assert text == [text[0]] + text[1..];
    }
  }

  lemma {:induction false} StripRightSplits(text: string) returns (post: string)
    ensures text == StripRight(text) + post && AllSpace(post)
  {
    if text == "" || !Space(text[|text|-1]) {
      post := "";
    } else {
      var rest := StripRightSplits(text[..|text|-1]);
      post := rest + [text[|text|-1]];
      assert text == text[..|text|-1] + [text[|text|-1]];
    }
  }

  /** A line is what stripping leaves of it, between white space. */
  lemma StripSplits(line: string) returns (pre: string, post: string)
    ensures line == pre + (Strip(line) + post) && AllSpace(pre) && AllSpace(post)
  {
    pre := StripLeftSplits(line);
    post := StripRightSplits(StripLeft(line));
  }

  lemma StripTight(text: string)
    requires text != "" && !Space(text[0]) && !Space(text[|text|-1])
    ensures Strip(text) == text
  {}

  function Concat(lines: seq<string>): string {
    if lines == [] then "" else lines[0] + Concat(lines[1..])
  }

  lemma {:induction false} ConcatSnoc(lines: seq<string>, line: string)
    ensures Concat(lines + [line]) == Concat(lines) + line
  {
    if lines == [] {
      assert [] + [line] == [line] && [line][1..] == [];
    } else {
      ConcatSnoc(lines[1..], line);
      assert (lines + [line])[1..] == lines[1..] + [line];
    }
  }

  ghost predicate ObjectLines(lines: seq<string>) {
    forall i :: 0 <= i < |lines| ==> ObjectText(Strip(lines[i]))
  }

  /** The same objects, line by line, up to white space around them. */
  ghost predicate SameObjects(a: seq<string>, b: seq<string>) {
    |a| == |b| && forall i :: 0 <= i < |a| ==> Strip(a[i]) == Strip(b[i])
  }

  lemma SameObjectsCons(a: seq<string>, b: seq<string>)
    requires a != [] && b != [] && Strip(a[0]) == Strip(b[0]) && SameObjects(a[1..], b[1..])
    ensures SameObjects(a, b)
  {
    forall i | 0 <= i < |a| ensures Strip(a[i]) == Strip(b[i]) {
      if i > 0 { assert a[i] == a[1..][i-1] && b[i] == b[1..][i-1]; }
    }
  }

  /** After equally long white space come the same texts. */
  lemma PadsAgree(u: string, a: string, v: string, b: string)
    requires u + a == v + b && AllSpace(u) && AllSpace(v)
    requires a != "" && !Space(a[0]) && b != "" && !Space(b[0])
    ensures u == v && a == b
  {
    var w := u + a;
    assert w == v + b;
    assert (forall i :: 0 <= i < |u| ==> Space(w[i])) && w[|u|] == a[0];
    assert (forall i :: 0 <= i < |v| ==> Space(w[i])) && w[|v|] == b[0];
    assert w[..|u|] == u && w[..|v|] == v && w[|u|..] == a && w[|v|..] == b;
  }

  lemma ShorterObjectAgrees(a: string, x: string, b: string, y: string)
    requires a + x == b + y && ObjectText(a) && ObjectText(b) && |a| <= |b|
    ensures a == b && x == y
  {
    assert (b + y)[..|a|] == b[..|a|] && (a + x)[..|a|] == a;
    ObjectsPrefixFree(a, b);
    assert (a + x)[|a|..] == x && (b + y)[|b|..] == y;
  }

  lemma ObjectsAgree(a: string, x: string, b: string, y: string)
    requires a + x == b + y && ObjectText(a) && ObjectText(b)
    ensures a == b && x == y
  {
    if |a| <= |b| {
      ShorterObjectAgrees(a, x, b, y);
    } else {
      ShorterObjectAgrees(b, y, a, x);
    }
  }

  /** Behind any white space, concatenated lines that begin with an object are not all white space. */
  lemma SomeObject(u: string, a: seq<string>)
    requires a != [] && ObjectText(Strip(a[0]))
    ensures !AllSpace(u + Concat(a))
  {
    var pre, post := StripSplits(a[0]);
    ObjectIsTight(Strip(a[0]));
    var at := |u| + |pre|;
    assert (u + Concat(a))[at] == Strip(a[0])[0];
  }

  lemma FirstLine(u: string, a: seq<string>) returns (pad: string, post: string)
    requires a != [] && AllSpace(u)
    ensures AllSpace(pad) && AllSpace(post)
    ensures u + Concat(a) == pad + (Strip(a[0]) + (post + Concat(a[1..])))
  {
    var pre;
    pre, post := StripSplits(a[0]);
    pad := u + pre;
    assert u + ((pre + (Strip(a[0]) + post)) + Concat(a[1..])) == (u + pre) + (Strip(a[0]) + (post + Concat(a[1..])));
  }

  /** Lines whose concatenations agree, white space before them aside, hold the same objects in the same order. */
  lemma {:induction false} ConcatTellsApart(u: string, a: seq<string>, v: string, b: seq<string>)
    requires AllSpace(u) && AllSpace(v) && ObjectLines(a) && ObjectLines(b)
    requires u + Concat(a) == v + Concat(b)
    ensures SameObjects(a, b)
    decreases |a|
  {
    hide ObjectText, Strip, Space;
    if a == [] {
      assert u + "" == u;
      if b != [] { SomeObject(v, b); }
    } else if b == [] {
      assert v + "" == v;
      SomeObject(u, a);
      assert false;
    } else {
      var s, t := Strip(a[0]), Strip(b[0]);
      var pad, post := FirstLine(u, a);
      var pad2, post2 := FirstLine(v, b);
      ObjectIsTight(s);
      ObjectIsTight(t);
      assert s != "" && t != "" by { ObjectNonEmpty(s); ObjectNonEmpty(t); }
      PadsAgree(pad, s + (post + Concat(a[1..])), pad2, t + (post2 + Concat(b[1..])));
      ObjectsAgree(s, post + Concat(a[1..]), t, post2 + Concat(b[1..]));
      ConcatTellsApart(post, a[1..], post2, b[1..]);
      SameObjectsCons(a, b);
    }
  }

  lemma ObjectNonEmpty(text: string)
    requires ObjectText(text)
    ensures text != ""
  {}

  /** An object is never read out of the concatenation in two ways: equal concatenations, equal objects. */
  lemma ConcatIsInjective(a: seq<string>, b: seq<string>)
    requires ObjectLines(a) && ObjectLines(b) && Concat(a) == Concat(b)
    ensures SameObjects(a, b)
  {
    assert "" + Concat(a) == Concat(a) && "" + Concat(b) == Concat(b);
    ConcatTellsApart("", a, "", b);
  }
}
