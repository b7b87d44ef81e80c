/** The Claude Messages protocol of the stream assembler. */
module ClaudeMessages {
  import opened Options
  import opened Json
  import opened StreamMessages

  datatype Kind = TextBlock | ThinkingBlock

  datatype Block = Block(kind: Kind, text: string, signature: Option<string>)

  /** The blocks in index order, the first `closed` of them closed. The assembler object keeps a
      dictionary and a set instead; it is proved to agree with this. */
  datatype ClaudeState = ClaudeState(
    blocks: seq<Block>, closed: nat, usage: Fields, meta: Fields, stop: Option<string>,
    started: bool, messageDelta: bool, messageStop: bool)

  datatype ClaudeAnswer = ClaudeAnswer(meta: Fields, stop: string, content: seq<Block>, usage: Fields)

  type ClaudeReply = Reply<ClaudeState, ClaudeAnswer>

  const CLAUDE_START := ClaudeState([], 0, map[], map[], None, false, false, false)

  function FieldName(kind: Kind): string
  {
    if kind == TextBlock then "text" else "thinking"
  }

  /** The keys of `message` that the answer keeps. */
  function Identity(message: Fields): Fields
  {
    map key | key in message && key in {"id", "type", "role", "model"} :: message[key]
  }

  function UsageOf(fields: Fields): Fields
  {
    if Get(fields, "usage").Obj? then Get(fields, "usage").fields else map[]
  }

  function OnMessageStart(c: ClaudeState, obj: Fields): ClaudeReply
  {
    if c.started then Refused(DuplicateMessageStart)
    else if !Get(obj, "message").Obj? then Refused(MalformedMessage)
    else
      var message := Get(obj, "message").fields;
      Continue(c.(started := true, meta := c.meta + Identity(message), usage := c.usage + UsageOf(message)))
  }

  function OnBlockStart(c: ClaudeState, obj: Fields): ClaudeReply
  {
    var index, block := Get(obj, "index"), Get(obj, "content_block");
    if !index.Int? || index.i != |c.blocks| || c.closed != |c.blocks| || !block.Obj? then
      Refused(MalformedBlock)
    else
      var kind := Get(block.fields, "type");
      if !Hashable(kind) then Raised
      else if !IsOneOf(kind, {"text", "thinking"}) then Refused(UnsupportedOutput)
      else
        var k := if kind.s == "text" then TextBlock else ThinkingBlock;
        var initial := GetOr(block.fields, FieldName(k), Str(""));
        if !initial.Str? then Refused(MalformedBlock)
        else Continue(c.(blocks := c.blocks + [Block(k, initial.s, None)]))
  }

  function Sign(block: Block, signature: string): Block
  {
    block.(signature := Some(match block.signature case None => signature case Some(s) => s + signature))
  }

  /** The block exists and has not been closed. */
  predicate IsOpen(c: ClaudeState, index: int) { c.closed <= index < |c.blocks| }

  function OnBlockDelta(c: ClaudeState, obj: Fields): ClaudeReply
  {
    var index, delta := Get(obj, "index"), Get(obj, "delta");
    if !index.Int? || !IsOpen(c, index.i) || !delta.Obj? then Refused(MalformedBlock)
    else
      var block, typ := c.blocks[index.i], Get(delta.fields, "type");
      if typ == Str("signature_delta") && block.kind == ThinkingBlock then
        var signature := Get(delta.fields, "signature");
        if !signature.Str? then Refused(MalformedDelta)
        else Continue(c.(blocks := c.blocks[index.i := Sign(block, signature.s)]))
      else if (typ == Str("text_delta") && block.kind == TextBlock)
           || (typ == Str("thinking_delta") && block.kind == ThinkingBlock) then
        var value := Get(delta.fields, FieldName(block.kind));
        if !value.Str? then Refused(MalformedDelta)
        else Continue(c.(blocks := c.blocks[index.i := block.(text := block.text + value.s)]))
      else Refused(UnsupportedOutput)
  }

  function OnBlockStop(c: ClaudeState, obj: Fields): ClaudeReply
  {
    var index := Get(obj, "index");
    if !index.Int? || !IsOpen(c, index.i) then Refused(MalformedBlock)
    else Continue(c.(closed := c.closed + 1))
  }

  function OnMessageDelta(c: ClaudeState, obj: Fields): ClaudeReply
  {
    if c.closed != |c.blocks| then Refused(UnclosedBlock)
    else
      var delta := Get(obj, "delta");
      if !delta.Obj? then Refused(MalformedDelta)
      else
        var stop := Get(delta.fields, "stop_reason");
        if !Hashable(stop) then Raised
        else if !IsOneOf(stop, {"end_turn", "stop_sequence"}) || c.messageDelta then Refused(UnsupportedFinish)
        else Continue(c.(stop := Some(stop.s), messageDelta := true, usage := c.usage + UsageOf(obj)))
  }

  function OnMessageStop(c: ClaudeState): ClaudeReply
    requires c.messageDelta ==> c.stop.Some?
  {
    if !c.messageDelta || c.messageStop || c.closed != |c.blocks| then Refused(InvalidTerminal)
    else
      Complete(c.(messageStop := true), ClaudeAnswer(c.meta, c.stop.value, c.blocks, c.usage))
  }

  /** What every reachable state satisfies: at most the last block is open, none once the message
      delta has come. */
  predicate Consistent(c: ClaudeState)
  {
    && c.closed <= |c.blocks| <= c.closed + 1
    && (c.messageDelta <==> c.stop.Some?)
    && (c.messageDelta ==> c.started && c.closed == |c.blocks|)
    && (c.messageStop ==> c.messageDelta)
    && (!c.started ==> c.blocks == [])
  }

  /** One event, once the answer is not complete yet. */
  function ClaudeFeed(c: ClaudeState, m: Message): (r: ClaudeReply)
    requires Consistent(c)
    ensures r.Continue? || r.Complete? ==> Consistent(r.state)
  {
    if m.name == "ping" then Continue(c)
    else if m.name == "error" then Refused(ProviderError)
    else if !m.body.Object? then Refused(MalformedJson)
    else
      var obj := m.body.fields;
      var typ := GetOr(obj, "type", Str(m.name));
      if typ == Str("ping") then Continue(c)
      else if typ == Str("error") then Refused(ProviderError)
      else if typ != Str("message_start") && !c.started then Refused(MissingMessageStart)
      else if c.messageDelta && typ != Str("message_stop") then Refused(DataAfterFinish)
      else if typ == Str("message_start") then OnMessageStart(c, obj)
      else if typ == Str("content_block_start") then OnBlockStart(c, obj)
      else if typ == Str("content_block_delta") then OnBlockDelta(c, obj)
      else if typ == Str("content_block_stop") then OnBlockStop(c, obj)
      else if typ == Str("message_delta") then OnMessageDelta(c, obj)
      else if typ == Str("message_stop") then OnMessageStop(c)
      else Continue(c)
  }
}
