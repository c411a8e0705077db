/**
 * The searchable rendering of a message: what it contains, and where each piece came from
 * (packages/python/src/cci/models.py).
 */
module Projections {
  import opened Wrappers
  import opened Sequences
  import opened Records

  /** Where part `k` begins when the parts are written one after another with one character between them. */
  function StartOf(parts: seq<string>, k: nat): nat
    requires k <= |parts|
  {
    if k == 0 then 0 else StartOf(parts, k - 1) + |parts[k-1]| + 1
  }

  /** The text is exactly the parts, in order, with a line break between any two. */
  ghost predicate LaidOut(text: string, parts: seq<string>) {
    && |text| + 1 == StartOf(parts, |parts|)
    && forall k :: 0 <= k < |parts| ==> PartAt(text, parts, k)
  }

  ghost predicate PartAt(text: string, parts: seq<string>, k: nat)
    requires k < |parts|
  {
    var from := StartOf(parts, k);
    && from + |parts[k]| <= |text| && text[from..from + |parts[k]|] == parts[k]
    && (k + 1 < |parts| ==> from + |parts[k]| < |text| && text[from + |parts[k]|] == '\n')
  }

  /** `at` lists the positions of the text blocks, in order. */
  ghost predicate Lists(at: seq<nat>, blocks: seq<Block>) {
    && (forall k, l :: 0 <= k < l < |at| ==> at[k] < at[l])
    && (forall k :: 0 <= k < |at| ==> at[k] < |blocks| && blocks[at[k]].TextBlock?)
    && (forall i :: 0 <= i < |blocks| && blocks[i].TextBlock? ==> i in at)
  }

  function TextsOf(blocks: seq<Block>, at: seq<nat>): (r: seq<string>)
    requires forall k :: 0 <= k < |at| ==> at[k] < |blocks| && blocks[at[k]].TextBlock?
    ensures |r| == |at|
  {
    seq(|at|, k requires 0 <= k < |at| => blocks[at[k]].text)
  }

  /** The text is the content's: all of it, or its text blocks in order, or nothing when there is none. */
  ghost predicate Shows(text: Option<string>, content: Content) {
    match content
    case NoContent => text == None
    case Plain(t) => text == Some(t)
    case Blocks(blocks) =>
      exists at :: Lists(at, blocks) &&
        if at == [] then text == None else text.Some? && LaidOut(text.value, TextsOf(blocks, at))
  }

  lemma {:induction false} StartShift(parts: seq<string>, k: nat)
    requires parts != [] && k < |parts|
    ensures StartOf(parts, k + 1) == |parts[0]| + 1 + StartOf(parts[1..], k)
  {
    if k > 0 { StartShift(parts, k - 1); }
  }

  lemma JoinCons(parts: seq<string>)
    requires |parts| >= 2
    ensures Join(parts, "\n") == parts[0] + "\n" + Join(parts[1..], "\n")
  {}

  lemma {:induction false} JoinLaidOut(parts: seq<string>)
    requires parts != []
    ensures LaidOut(Join(parts, "\n"), parts)
    decreases |parts|
  {
    var text := Join(parts, "\n");
    assert StartOf(parts, 0) == 0 && StartOf(parts, 1) == |parts[0]| + 1;
    if |parts| == 1 {
      assert PartAt(text, parts, 0);
    } else {
      var rest, tail := parts[1..], Join(parts[1..], "\n");
      JoinLaidOut(rest);
      JoinCons(parts);
      StartShift(parts, |rest|);
      hide Join;
      forall k | 0 <= k < |parts| ensures PartAt(text, parts, k) {
        if k > 0 { PartLater(parts, text, tail, k); }
      }
    }
  }

  lemma PartLater(parts: seq<string>, text: string, tail: string, k: nat)
    requires 0 < k < |parts| && text == parts[0] + "\n" + tail && PartAt(tail, parts[1..], k - 1)
    ensures PartAt(text, parts, k)
  {
    StartShift(parts, k - 1);
    var rest := parts[1..];
    var d, from := |parts[0]| + 1, StartOf(rest, k - 1);
    hide StartOf;
    assert rest[k - 1] == parts[k];
    assert text[d..] == tail;
    assert text[d + from..d + from + |parts[k]|] == tail[from..from + |parts[k]|];
  }

  /** `at` lists the positions of the text blocks from `from` on, in order. */
  ghost predicate ListsFrom(at: seq<nat>, blocks: seq<Block>, from: nat) {
    && (forall k, l :: 0 <= k < l < |at| ==> at[k] < at[l])
    && (forall k :: 0 <= k < |at| ==> from <= at[k] < |blocks| && blocks[at[k]].TextBlock?)
    && (forall i :: from <= i < |blocks| && blocks[i].TextBlock? ==> i in at)
  }

  lemma {:induction false} BlockTextsFrom(blocks: seq<Block>, from: nat) returns (at: seq<nat>)
    requires from <= |blocks|
    ensures ListsFrom(at, blocks, from) && BlockTexts(blocks[from..]) == TextsOf(blocks, at)
    decreases |blocks| - from
  {
    if from == |blocks| {
      at := [];
    } else {
      var rest := BlockTextsFrom(blocks, from + 1);
      assert blocks[from..][1..] == blocks[from + 1..];
      if blocks[from].TextBlock? {
        at := [from] + rest;
        assert TextsOf(blocks, at) == [blocks[from].text] + TextsOf(blocks, rest);
      } else {
        at := rest;
      }
    }
  }

  lemma BlockTextsAre(blocks: seq<Block>) returns (at: seq<nat>)
    ensures Lists(at, blocks) && BlockTexts(blocks) == TextsOf(blocks, at)
  {
    at := BlockTextsFrom(blocks, 0);
    assert blocks[0..] == blocks;
  }

  /** The projection shows exactly the text of the content. */
  lemma ProjectionShows(content: Content)
    ensures Shows(Projection(content), content)
  {
    if content.Blocks? {
      var at := BlockTextsAre(content.blocks);
      var parts := BlockTexts(content.blocks);
      if parts != [] { JoinLaidOut(parts); }
      hide BlockTexts, LaidOut, Lists, Join;
      assert at == [] <==> parts == [];
    }
  }

  // ---------------------------------------------------------------- back from the projection to the payload

  /** The offset lies in the text of the `k`-th text block. */
  ghost predicate Within(blocks: seq<Block>, at: seq<nat>, k: nat, offset: nat)
    requires Lists(at, blocks) && k < |at|
  {
    var parts := TextsOf(blocks, at);
    StartOf(parts, k) <= offset < StartOf(parts, k) + |parts[k]|
  }

  /** This is the text block with the offset, or there is none. */
  ghost predicate PointsInto(blocks: seq<Block>, at: seq<nat>, offset: nat, p: Pointer)
    requires Lists(at, blocks)
  {
    match p
    case Whole => forall k :: 0 <= k < |at| ==> !Within(blocks, at, k, offset)
    case BlockAt(i) => exists k :: 0 <= k < |at| && at[k] == i && Within(blocks, at, k, offset)
  }

  /** The first `n` text blocks are those before position `i`. */
  ghost predicate Split(blocks: seq<Block>, at: seq<nat>, n: nat, i: nat) {
    n <= |at| && (forall k :: 0 <= k < n ==> at[k] < i) && (forall k :: n <= k < |at| ==> i <= at[k])
  }

  lemma NextListed(blocks: seq<Block>, at: seq<nat>, n: nat, i: nat)
    requires Lists(at, blocks) && Split(blocks, at, n, i) && i < |blocks| && blocks[i].TextBlock?
    ensures n < |at| && at[n] == i && Split(blocks, at, n + 1, i + 1)
    ensures TextsOf(blocks, at)[n] == blocks[i].text
    ensures StartOf(TextsOf(blocks, at), n + 1) == StartOf(TextsOf(blocks, at), n) + |blocks[i].text| + 1
  {
    assert i in at;
  }

  lemma NotListed(blocks: seq<Block>, at: seq<nat>, n: nat, i: nat)
    requires Lists(at, blocks) && Split(blocks, at, n, i) && i < |blocks| && !blocks[i].TextBlock?
    ensures Split(blocks, at, n, i + 1)
  {}

  lemma AllListed(blocks: seq<Block>, at: seq<nat>, n: nat)
    requires Lists(at, blocks) && Split(blocks, at, n, |blocks|)
    ensures n == |at|
  {
    hide Lists;
    if n < |at| {
      ListedBelow(blocks, at, n);
      assert false;
    }
  }

  lemma ListedBelow(blocks: seq<Block>, at: seq<nat>, k: nat)
    requires Lists(at, blocks) && k < |at|
    ensures at[k] < |blocks|
  {}

  /** Which field an offset of the projection came from: the block whose text is there, or the whole content. */
  method PointerForOffset(content: Content, offset: nat) returns (p: Pointer)
    ensures !content.Blocks? ==> p == Whole
    ensures content.Blocks? ==>
              exists at :: Lists(at, content.blocks) && PointsInto(content.blocks, at, offset, p)
  {
    if !content.Blocks? {
      return Whole;
    }
    var blocks, cursor := content.blocks, 0;
    ghost var at := BlockTextsAre(blocks);
    ghost var parts, n := TextsOf(blocks, at), 0;
    assert Split(blocks, at, 0, 0) && StartOf(parts, 0) == 0;
    hide Lists, Split, StartOf, TextsOf;
    for i := 0 to |blocks|
      invariant n <= |at| && Split(blocks, at, n, i) && cursor == StartOf(parts, n)
      invariant forall k :: 0 <= k < n ==> !Within(blocks, at, k, offset)
    {
      if blocks[i].TextBlock? {
        NextListed(blocks, at, n, i);
        if cursor <= offset < cursor + |blocks[i].text| {
          assert Within(blocks, at, n, offset) && PointsInto(blocks, at, offset, BlockAt(i));
          return BlockAt(i);
        }
        cursor, n := cursor + |blocks[i].text| + 1, n + 1;
      } else {
        NotListed(blocks, at, n, i);
      }
    }
    AllListed(blocks, at, n);
    assert PointsInto(blocks, at, offset, Whole);
    return Whole;
  }
}
