/** Message records and the pure functions on them (packages/python/src/cci/models.py). */
module Records {
  import opened Wrappers
  import opened Sequences

  type MessageId = nat

  /** A clock reading as it is stored, a floating-point number: only which one it is matters. */
  type Moment = nat

  /** A content block: a text block, or any other block kept verbatim. */
  datatype Block = TextBlock(text: string) | OtherBlock(raw: string)

  datatype Content = NoContent | Plain(text: string) | Blocks(blocks: seq<Block>)

  /** The stored payload; two payloads are equal exactly when their canonical encodings are. */
  datatype Payload = Payload(role: string, content: Content, metadata: Option<string>,
                             toolCalls: Option<string>, toolCallId: Option<string>)

  datatype InputMessage = InputMessage(role: string, content: Content, externalId: Option<string>,
                                       metadata: Option<string>, toolCalls: Option<string>, toolCallId: Option<string>)

  /** The stored digest of a payload, injective: what it was made from. */
  datatype PayloadDigest = PayloadDigest(payload: Payload)

  datatype Message = Message(id: MessageId, seqNo: nat, history: string, source: string, externalId: Option<string>,
                             key: Option<string>, position: Option<nat>, payload: Payload, text: Option<string>,
                             digest: PayloadDigest, session: Option<string>, created: Moment)

  function PayloadOf(m: InputMessage): Payload {
    Payload(m.role, m.content, m.metadata, m.toolCalls, m.toolCallId)
  }

  function BlockTexts(blocks: seq<Block>): seq<string> {
    if blocks == [] then []
    else (if blocks[0].TextBlock? then [blocks[0].text] else []) + BlockTexts(blocks[1..])
  }

  function Join(parts: seq<string>, separator: string): string {
    if parts == [] then "" else if |parts| == 1 then parts[0] else parts[0] + separator + Join(parts[1..], separator)
  }

  /** The searchable rendering; None when there is no text at all. */
  function Projection(content: Content): Option<string> {
    match content
    case NoContent => None
    case Plain(text) => Some(text)
    case Blocks(blocks) => var parts := BlockTexts(blocks); if parts == [] then None else Some(Join(parts, "\n"))
  }

  /** A source pointer: the whole content, or one text block by position. */
  datatype Pointer = Whole | BlockAt(index: nat)

  /** The text a pointer names in the original payload. */
  function TextAt(payload: Payload, pointer: Pointer): Option<string> {
    match pointer
    case Whole => if payload.content.Plain? then Some(payload.content.text) else None
    case BlockAt(i) =>
      if payload.content.Blocks? && i < |payload.content.blocks| && payload.content.blocks[i].TextBlock?
      then Some(payload.content.blocks[i].text) else None
  }

  /** What the idempotency digest covers; tool-call fields are not part of it. */
  datatype DigestItem = DigestItem(role: string, content: Content, externalId: Option<string>, metadata: Option<string>)

  datatype Digest = Digest(items: seq<DigestItem>, source: string, session: Option<string>)

  function RequestDigest(messages: seq<InputMessage>, source: string, session: Option<string>): Digest {
    Digest(seq(|messages|, i requires 0 <= i < |messages| =>
             DigestItem(messages[i].role, messages[i].content, messages[i].externalId, messages[i].metadata)),
           source, session)
  }

  function MessageIds(messages: seq<Message>): (r: seq<MessageId>)
    ensures |r| == |messages| && forall i :: 0 <= i < |messages| ==> r[i] == messages[i].id
  {
    seq(|messages|, i requires 0 <= i < |messages| => messages[i].id)
  }

  function SeqNos(messages: seq<Message>): (r: seq<nat>)
    ensures |r| == |messages| && forall i :: 0 <= i < |messages| ==> r[i] == messages[i].seqNo
  {
    seq(|messages|, i requires 0 <= i < |messages| => messages[i].seqNo)
  }

  /** The row with this identifier, if any. */
  function Find(messages: seq<Message>, id: MessageId): Option<Message> {
    if messages == [] then None
    else if messages[|messages|-1].id == id then Some(messages[|messages|-1])
    else Find(messages[..|messages|-1], id)
  }

  lemma {:induction false} FindFacts(messages: seq<Message>, id: MessageId)
    ensures Find(messages, id).Some? ==> Find(messages, id).value in messages && Find(messages, id).value.id == id
    ensures Find(messages, id).None? ==> forall m :: m in messages ==> m.id != id
  {
    if messages != [] {
      var init, last := messages[..|messages|-1], messages[|messages|-1];
      assert messages == init + [last];
      FindFacts(init, id);
    }
  }

  /** With unique identifiers, looking a row up by its identifier finds that row. */
  lemma FindUnique(messages: seq<Message>, m: Message)
    requires NoDup(MessageIds(messages)) && m in messages
    ensures Find(messages, m.id) == Some(m)
  {
    FindFacts(messages, m.id);
    var found := Find(messages, m.id).value;
    var i :| 0 <= i < |messages| && messages[i] == m;
    var j :| 0 <= j < |messages| && messages[j] == found;
    assert MessageIds(messages)[i] == MessageIds(messages)[j];
  }

  /** Rows that have a text projection, in table order. */
  function WithText(messages: seq<Message>): seq<Message> {
    if messages == [] then []
    else
      var last := messages[|messages|-1];
      WithText(messages[..|messages|-1]) + (if last.text.Some? then [last] else [])
  }

  lemma {:induction false} WithTextFacts(messages: seq<Message>)
    ensures forall m :: m in WithText(messages) <==> m in messages && m.text.Some?
    ensures NoDup(MessageIds(messages)) ==> NoDup(MessageIds(WithText(messages)))
  {
    if messages != [] {
      var init, last := messages[..|messages|-1], messages[|messages|-1];
      assert messages == init + [last];
      WithTextFacts(init);
      if NoDup(MessageIds(messages)) {
        var ids := MessageIds(messages);
        assert MessageIds(init) == ids[..|init|];
        var kept := MessageIds(WithText(messages));
        forall i, j | 0 <= i < j < |kept| ensures kept[i] != kept[j] {
          var w := WithText(init);
          assert kept[i] == MessageIds(w)[i];
          if j < |w| {
            assert kept[j] == MessageIds(w)[j];
          } else {
            assert w[i] in init;
            var k :| 0 <= k < |init| && init[k] == w[i];
            assert ids[k] != ids[|init|];
          }
        }
      }
    }
  }
}
