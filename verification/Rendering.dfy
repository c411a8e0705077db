/** Delimiter-safe evidence text (packages/python/src/cci/context_assembly.py). */
module Rendering {
  import opened Wrappers
  import opened Sequences
  import opened Records

  const OPEN := "<<<CCI_EVIDENCE"
  const CLOSE := "CCI_EVIDENCE_END>>>"
  const OPEN_ESCAPED := "\U{2039}CCI_EVIDENCE\U{203A}"
  const CLOSE_ESCAPED := "\U{2039}CCI_EVIDENCE_END\U{203A}"

  datatype EvidenceBlock = EvidenceBlock(id: string, pointer: string, excerpt: string)

  // ---------------------------------------------------------------- replacement

  /** Python's `str.replace`: leftmost matches, not overlapping, the replacement never scanned again. */
  function Replace(t: string, pattern: string, fill: string): string
    requires pattern != ""
  {
    if |t| < |pattern| then t
    else if pattern <= t then fill + Replace(t[|pattern|..], pattern, fill)
    else [t[0]] + Replace(t[1..], pattern, fill)
  }

  ghost predicate OccursAt(t: string, p: string, i: nat) {
    i + |p| <= |t| && t[i..i + |p|] == p
  }

  ghost predicate Free(t: string, p: string) {
    forall i: nat :: !OccursAt(t, p, i)
  }

  lemma OccursTail(t: string, p: string, i: nat, n: nat)
    requires n <= |t| && n <= i
    ensures OccursAt(t, p, i) <==> OccursAt(t[n..], p, i - n)
  {
    if i + |p| <= |t| {
      assert t[i..i + |p|] == t[n..][i - n..i - n + |p|];
    }
  }

  lemma OccursFirst(t: string, p: string)
    ensures OccursAt(t, p, 0) <==> p <= t
  {
    if |p| <= |t| { assert t[0..|p|] == t[..|p|]; }
  }

  /** A prefix free of the replacement's first character was there before the replacement. */
  lemma {:induction false} PrefixWasThere(t: string, pattern: string, fill: string, w: string)
    requires pattern != "" && fill != "" && fill[0] !in w && w <= Replace(t, pattern, fill)
    ensures w <= t
    decreases |w|
  {
    if w != "" && |t| >= |pattern| {
      var r := Replace(t, pattern, fill);
      assert w[0] == r[0] && w[0] in w;
      assert w[1..] <= r[1..];
      if !(pattern <= t) {
        assert r[1..] == Replace(t[1..], pattern, fill);
        PrefixWasThere(t[1..], pattern, fill, w[1..]);
        assert w == [w[0]] + w[1..] && t == [t[0]] + t[1..];
      }
    }
  }

  /** No occurrence of `p` starts inside the text `fill` placed before `rest`. */
  ghost predicate Shields(fill: string, p: string) {
    && fill != "" && p != "" && fill[0] !in p
    && ((|fill| <= |p| && fill[|fill|-1] !in p) || p[0] !in fill)
  }

  lemma Mismatch(t: string, p: string, i: nat, x: nat)
    requires x < |p| && (i + x < |t| ==> t[i + x] != p[x])
    ensures !OccursAt(t, p, i)
  {
    if i + |p| <= |t| { assert t[i..i + |p|][x] == t[i + x]; }
  }

  lemma NothingInside(fill: string, rest: string, p: string, i: nat)
    requires Shields(fill, p) && i < |fill|
    ensures !OccursAt(fill + rest, p, i)
  {
    var t := fill + rest;
    assert t[i] == fill[i] && fill[i] in fill && p[0] in p;
    if fill[i] != p[0] {
      Mismatch(t, p, i, 0);
    } else {
      var x := |fill| - 1 - i;
      assert t[i + x] == fill[|fill|-1] && p[x] in p;
      Mismatch(t, p, i, x);
    }
  }

  /**
   * Replacing `pattern` leaves no `p` behind, when `p` is the pattern itself or was absent before, and
   * the replacement shields it.
   */
  lemma {:induction false} ReplaceLeavesFree(t: string, pattern: string, fill: string, p: string)
    requires pattern != "" && Shields(fill, p) && (p == pattern || Free(t, p))
    ensures Free(Replace(t, pattern, fill), p)
    decreases |t|
  {
    var r := Replace(t, pattern, fill);
    forall i: nat ensures !OccursAt(r, p, i) {
      if |t| < |pattern| {
      } else if pattern <= t {
        var rest := t[|pattern|..];
        FreeTail(t, p, |pattern|);
        ReplaceLeavesFree(rest, pattern, fill, p);
        if i < |fill| {
          NothingInside(fill, Replace(rest, pattern, fill), p, i);
        } else {
          OccursTail(r, p, i, |fill|);
          assert r[|fill|..] == Replace(rest, pattern, fill);
        }
      } else {
        FreeTail(t, p, 1);
        ReplaceLeavesFree(t[1..], pattern, fill, p);
        if i == 0 {
          OccursFirst(r, p);
          OccursFirst(t, p);
          if p <= r { PrefixWasThere(t, pattern, fill, p); }
        } else {
          OccursTail(r, p, i, 1);
          assert r[1..] == Replace(t[1..], pattern, fill);
        }
      }
    }
  }

  lemma FreeTail(t: string, p: string, n: nat)
    requires n <= |t|
    ensures Free(t, p) ==> Free(t[n..], p)
  {
    forall i: nat ensures OccursAt(t[n..], p, i) ==> OccursAt(t, p, i + n) {
      OccursTail(t, p, i + n, n);
    }
  }

  // ---------------------------------------------------------------- escaping

  function Escape(text: string): string {
    Replace(Replace(text, OPEN, OPEN_ESCAPED), CLOSE, CLOSE_ESCAPED)
  }

  /** Escaped text contains neither delimiter, whatever the two replacements put side by side. */
  lemma EscapeIsSafe(text: string)
    ensures Free(Escape(text), OPEN) && Free(Escape(text), CLOSE)
  {
    ReplaceLeavesFree(text, OPEN, OPEN_ESCAPED, OPEN);
    var once := Replace(text, OPEN, OPEN_ESCAPED);
    ReplaceLeavesFree(once, CLOSE, CLOSE_ESCAPED, OPEN);
    ReplaceLeavesFree(once, CLOSE, CLOSE_ESCAPED, CLOSE);
  }

  /** Text that holds no delimiter is quoted unchanged. */
  lemma {:induction false} ReplaceNothing(t: string, pattern: string, fill: string)
    requires pattern != "" && Free(t, pattern)
    ensures Replace(t, pattern, fill) == t
  {
    if |t| >= |pattern| {
      OccursFirst(t, pattern);
      FreeTail(t, pattern, 1);
      ReplaceNothing(t[1..], pattern, fill);
    }
  }

  /** Escaping changes exactly the texts that contain a delimiter, and changes nothing twice. */
  lemma EscapeIsIdempotent(text: string)
    ensures Escape(Escape(text)) == Escape(text)
    ensures Escape(text) == text <==> Free(text, OPEN) && Free(text, CLOSE)
  {
    EscapeIsSafe(text);
    ReplaceNothing(Escape(text), OPEN, OPEN_ESCAPED);
    ReplaceNothing(Escape(text), CLOSE, CLOSE_ESCAPED);
    if Free(text, OPEN) && Free(text, CLOSE) {
      ReplaceNothing(text, OPEN, OPEN_ESCAPED);
      ReplaceNothing(text, CLOSE, CLOSE_ESCAPED);
    }
  }

  // ---------------------------------------------------------------- rendering

  function RenderBlock(b: EvidenceBlock): string {
    OPEN + " id=" + b.id + " source=" + b.pointer + "\n" + Escape(b.excerpt) + "\n" + CLOSE
  }

  function RenderAll(blocks: seq<EvidenceBlock>): (r: seq<string>)
    ensures |r| == |blocks|
  {
    seq(|blocks|, i requires 0 <= i < |blocks| => RenderBlock(blocks[i]))
  }

  function Render(blocks: seq<EvidenceBlock>): string {
    Join(RenderAll(blocks), "\n")
  }

  /** The renderer's loop. */
  method RenderEvidence(blocks: seq<EvidenceBlock>) returns (text: string)
    ensures text == Render(blocks)
  {
    var rendered: seq<string> := [];
    for i := 0 to |blocks|
      invariant rendered == RenderAll(blocks[..i])
    {
      var escaped := Escape(blocks[i].excerpt);
      assert blocks[..i+1][..i] == blocks[..i];
      rendered := rendered
        + [OPEN + " id=" + blocks[i].id + " source=" + blocks[i].pointer + "\n" + escaped + "\n" + CLOSE];
    }
    assert blocks[..|blocks|] == blocks;
    text := Join(rendered, "\n");
  }

  lemma RenderCons(blocks: seq<EvidenceBlock>)
    requires blocks != []
    ensures Render(blocks) == RenderBlock(blocks[0]) + (if |blocks| == 1 then "" else "\n" + Render(blocks[1..]))
  {
    assert RenderAll(blocks)[1..] == RenderAll(blocks[1..]);
    assert RenderAll(blocks)[0] == RenderBlock(blocks[0]);
    if |blocks| > 1 {
      assert Render(blocks) == RenderBlock(blocks[0]) + "\n" + Render(blocks[1..]);
    }
  }

  // ---------------------------------------------------------------- reading it back

  /** Where `p` first occurs in `t`, or the length of `t`. */
  function FirstAt(t: string, p: string): (i: nat)
    ensures i <= |t|
  {
    if |t| == 0 || p <= t then 0 else 1 + FirstAt(t[1..], p)
  }

  lemma {:induction false} FirstAtIs(t: string, p: string, i: nat)
    requires p != "" && OccursAt(t, p, i) && forall j: nat :: j < i ==> !OccursAt(t, p, j)
    ensures FirstAt(t, p) == i
    decreases i
  {
    OccursFirst(t, p);
    if i > 0 {
      assert !OccursAt(t, p, 0);
      OccursTail(t, p, i, 1);
      forall j: nat | j < i - 1 ensures !OccursAt(t[1..], p, j) {
        OccursTail(t, p, j + 1, 1);
      }
      FirstAtIs(t[1..], p, i - 1);
    }
  }

  /** Reads one field that ends just before `stop`, and the text after the stop. */
  function Field(t: string, stop: string): Option<(string, string)> {
    var i := FirstAt(t, stop);
    if i + |stop| <= |t| && i < |t| then Some((t[..i], t[i + |stop|..])) else None
  }

  function Strip(t: string, prefix: string): Option<string> {
    if prefix <= t then Some(t[|prefix|..]) else None
  }

  /** One block off the front: header, quoted text up to the first closing line. */
  function ReadBlock(t: string): (r: Option<(EvidenceBlock, string)>)
    ensures r.Some? ==> |r.value.1| < |t|
  {
    var head := Strip(t, OPEN + " id=");
    if head.None? then None else
    var id := Field(head.value, " source=");
    if id.None? then None else
    var pointer := Field(id.value.1, "\n");
    if pointer.None? then None else
    var quoted := Field(pointer.value.1, "\n" + CLOSE);
    if quoted.None? then None
    else Some((EvidenceBlock(id.value.0, pointer.value.0, quoted.value.0), quoted.value.1))
  }

  /** A reader of rendered evidence. */
  function Parse(t: string): Option<seq<EvidenceBlock>>
    decreases |t|
  {
    if t == "" then Some([])
    else
      var first := ReadBlock(t);
      if first.None? then None
      else if first.value.1 == "" then Some([first.value.0])
      else if first.value.1[0] != '\n' then None
      else
        var more := Parse(first.value.1[1..]);
        if more.None? then None else Some([first.value.0] + more.value)
  }

  ghost predicate PlainLabel(s: string) {
    ' ' !in s && '\n' !in s
  }

  ghost predicate Labelled(blocks: seq<EvidenceBlock>) {
    forall i :: 0 <= i < |blocks| ==> PlainLabel(blocks[i].id) && PlainLabel(blocks[i].pointer)
  }

  /** A field with no occurrence of the stop's first character ends at the stop. */
  lemma FieldUntil(a: string, stop: string, rest: string)
    requires stop != "" && stop[0] !in a
    ensures Field(a + stop + rest, stop) == Some((a, rest))
  {
    var t := a + stop + rest;
    assert t[|a|..|a| + |stop|] == stop;
    forall j: nat | j < |a| ensures !OccursAt(t, stop, j) {
      assert t[j] == a[j] && a[j] in a;
    }
    FirstAtIs(t, stop, |a|);
    assert t[..|a|] == a && t[|a| + |stop|..] == rest;
  }

  /** A quotation without the closing delimiter ends at the first closing line. */
  lemma QuotationUntil(a: string, rest: string)
    requires Free(a, CLOSE)
    ensures Field(a + ("\n" + CLOSE) + rest, "\n" + CLOSE) == Some((a, rest))
  {
    var stop := "\n" + CLOSE;
    var t := a + stop + rest;
    assert t[|a|..|a| + |stop|] == stop;
    forall j: nat | j < |a| ensures !OccursAt(t, stop, j) {
      NoCloseAcross(a, rest, j);
    }
    FirstAtIs(t, stop, |a|);
    assert t[..|a|] == a && t[|a| + |stop|..] == rest;
  }

  lemma OccursWithin(a: string, rest: string, p: string, i: nat)
    requires i + |p| <= |a|
    ensures OccursAt(a + rest, p, i) <==> OccursAt(a, p, i)
  {
    assert (a + rest)[i..i + |p|] == a[i..i + |p|];
  }

  lemma OccursAfterBreak(t: string, p: string, j: nat)
    requires OccursAt(t, "\n" + p, j)
    ensures OccursAt(t, p, j + 1)
  {
    assert t[j + 1..j + 1 + |p|] == t[j..j + 1 + |p|][1..];
  }

  lemma NoCloseAcross(a: string, rest: string, j: nat)
    requires Free(a, CLOSE) && j < |a|
    ensures !OccursAt(a + ("\n" + CLOSE) + rest, "\n" + CLOSE, j)
  {
    var t, stop := a + ("\n" + CLOSE) + rest, "\n" + CLOSE;
    if j + 1 + |CLOSE| <= |a| {
      assert !OccursAt(a, CLOSE, j + 1);
      assert t == a + (stop + rest);
      OccursWithin(a, stop + rest, CLOSE, j + 1);
      if OccursAt(t, stop, j) { OccursAfterBreak(t, CLOSE, j); }
    } else {
      assert t[|a|] == '\n' && stop[|a| - j] == CLOSE[|a| - j - 1];
      assert forall x :: 0 <= x < |CLOSE| ==> CLOSE[x] != '\n';
      Mismatch(t, stop, j, |a| - j);
    }
  }

  lemma BlockReads(b: EvidenceBlock, rest: string)
    requires PlainLabel(b.id) && PlainLabel(b.pointer)
    ensures ReadBlock(RenderBlock(b) + rest) == Some((b.(excerpt := Escape(b.excerpt)), rest))
  {
    EscapeIsSafe(b.excerpt);
    var quoted := Escape(b.excerpt) + ("\n" + CLOSE) + rest;
    var afterId := b.pointer + "\n" + quoted;
    var afterHead := b.id + " source=" + afterId;
    hide Escape, Field, Free;
    assert RenderBlock(b) + rest == (OPEN + " id=") + afterHead;
    assert (RenderBlock(b) + rest)[|OPEN + " id="|..] == afterHead;
    FieldUntil(b.id, " source=", afterId);
    FieldUntil(b.pointer, "\n", quoted);
    QuotationUntil(Escape(b.excerpt), rest);
  }

  function Escaped(blocks: seq<EvidenceBlock>): seq<EvidenceBlock> {
    seq(|blocks|, i requires 0 <= i < |blocks| => blocks[i].(excerpt := Escape(blocks[i].excerpt)))
  }

  /** Reading one block leaves exactly what follows it. */
  lemma ParseBlock(b: EvidenceBlock, rest: string)
    requires PlainLabel(b.id) && PlainLabel(b.pointer)
    ensures var quoted := b.(excerpt := Escape(b.excerpt));
            && (rest == "" ==> Parse(RenderBlock(b) + rest) == Some([quoted]))
            && (rest != "" && rest[0] == '\n' && Parse(rest[1..]).Some? ==>
                  Parse(RenderBlock(b) + rest) == Some([quoted] + Parse(rest[1..]).value))
  {
    BlockReads(b, rest);
    NonEmptyBlock(b);
    hide Escape, RenderBlock, ReadBlock, PlainLabel;
  }

  /** Rendered evidence reads back as exactly its blocks: no quoted text can forge or swallow a block. */
  lemma {:induction false} RenderRoundTrip(blocks: seq<EvidenceBlock>)
    requires Labelled(blocks)
    ensures Parse(Render(blocks)) == Some(Escaped(blocks))
    decreases |blocks|
  {
    hide *;
    if blocks == [] {
      RenderNothing();
    } else {
      RenderCons(blocks);
      EscapedCons(blocks);
      if |blocks| > 1 {
        LabelledTail(blocks);
        RenderRoundTrip(blocks[1..]);
        ParseBlock(blocks[0], "\n" + Render(blocks[1..]));
        assert ("\n" + Render(blocks[1..]))[1..] == Render(blocks[1..]);
      } else {
        LabelledTail(blocks);
        RenderNothing();
        ParseBlock(blocks[0], "");
        assert blocks[1..] == [];
        assert RenderBlock(blocks[0]) + "" == RenderBlock(blocks[0]);
        assert Escaped(blocks) == [blocks[0].(excerpt := Escape(blocks[0].excerpt))];
      }
    }
  }

  lemma RenderNothing()
    ensures Render([]) == "" && Escaped([]) == [] && Parse("") == Some([])
  {
    assert RenderAll([]) == [];
  }

  lemma EscapedCons(blocks: seq<EvidenceBlock>)
    requires blocks != []
    ensures Escaped(blocks) == [blocks[0].(excerpt := Escape(blocks[0].excerpt))] + Escaped(blocks[1..])
  {
    hide Escape;
  }

  lemma LabelledTail(blocks: seq<EvidenceBlock>)
    requires Labelled(blocks) && blocks != []
    ensures PlainLabel(blocks[0].id) && PlainLabel(blocks[0].pointer) && Labelled(blocks[1..])
  {
    hide PlainLabel;
  }

  lemma NonEmptyBlock(b: EvidenceBlock)
    ensures RenderBlock(b) != ""
  {}

  // ---------------------------------------------------------------- how long it is

  /** Each block costs its own text and one line break. */
  function Cost(blocks: seq<EvidenceBlock>): nat {
    if blocks == [] then 0 else |RenderBlock(blocks[0])| + 1 + Cost(blocks[1..])
  }

  lemma {:induction false} RenderLength(blocks: seq<EvidenceBlock>)
    ensures blocks != [] ==> |Render(blocks)| + 1 == Cost(blocks)
    ensures blocks == [] ==> |Render(blocks)| == 0
    decreases |blocks|
  {
    if blocks != [] {
      RenderCons(blocks);
      RenderLength(blocks[1..]);
      hide RenderBlock, Render;
    } else {
      assert RenderAll([]) == [];
    }
  }

  lemma {:induction false} CostConcat(a: seq<EvidenceBlock>, b: seq<EvidenceBlock>)
    ensures Cost(a + b) == Cost(a) + Cost(b)
  {
    hide RenderBlock;
    if a == [] {
      assert a + b == b;
    } else {
      CostConcat(a[1..], b);
      assert (a + b)[1..] == a[1..] + b;
    }
  }

  /** The order of the blocks does not change how long the text is. */
  lemma {:induction false} CostOfMultiset(a: seq<EvidenceBlock>, b: seq<EvidenceBlock>)
    requires multiset(a) == multiset(b)
    ensures Cost(a) == Cost(b)
    decreases |a|
  {
    hide *;
    if a == [] {
      assert |multiset(b)| == |b| && |multiset(a)| == 0;
      assert b == [];
    } else {
      var j := Position(b, a[0]);
      TakeOut(a, 0);
      TakeOut(b, j);
      CostWithout(a, 0);
      CostWithout(b, j);
      CostOfMultiset(RemoveAt(a, 0), RemoveAt(b, j));
    }
  }

  lemma CostMiddle(u: seq<EvidenceBlock>, x: EvidenceBlock, v: seq<EvidenceBlock>)
    ensures Cost(u + ([x] + v)) == Cost([x]) + Cost(u + v)
  {
    hide *;
    CostConcat(u, [x] + v);
    CostConcat([x], v);
    CostConcat(u, v);
  }

  lemma CostWithout(blocks: seq<EvidenceBlock>, j: nat)
    requires j < |blocks|
    ensures Cost(blocks) == Cost([blocks[j]]) + Cost(RemoveAt(blocks, j))
  {
    SplitAt(blocks, j);
    hide *;
    CostMiddle(blocks[..j], blocks[j], blocks[j+1..]);
  }
}
