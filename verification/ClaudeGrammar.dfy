/**
 The grammar of a complete Claude answer.

 A run of events completes exactly when, pings and unknown event types aside, it is a message start,
 then blocks 0, 1, 2, ... each opened, extended and closed before the next, then one message delta,
 then the message stop; and the answer then holds each block's text as its initial text followed by
 its deltas in order.
 */
module ClaudeGrammar {
  import opened Options
  import opened Json
  import opened StreamMessages
  import opened ClaudeMessages

  /** What an event says by itself, before any state is consulted. */
  datatype Token =
    | Ping
    | Unknown
    | Start(message: Fields)
    | Open(index: int, kind: Kind, initial: string)
    | Text(index: int, kind: Kind, value: string)
    | Signature(index: int, value: string)
    | Close(index: int)
    | Ending(stop: string, usage: Fields)
    | Stop
    | Improper

  function OpenToken(obj: Fields): Token
  {
    var index, block := Get(obj, "index"), Get(obj, "content_block");
    if !index.Int? || !block.Obj? || !IsOneOf(Get(block.fields, "type"), {"text", "thinking"}) then Improper
    else
      var k := if Get(block.fields, "type").s == "text" then TextBlock else ThinkingBlock;
      var initial := GetOr(block.fields, if k == TextBlock then "text" else "thinking", Str(""));
      if initial.Str? then Open(index.i, k, initial.s) else Improper
  }

  function DeltaToken(obj: Fields): Token
  {
    var index, delta := Get(obj, "index"), Get(obj, "delta");
    if !index.Int? || !delta.Obj? then Improper
    else
      var typ, d := Get(delta.fields, "type"), delta.fields;
      if typ == Str("text_delta") && Get(d, "text").Str? then Text(index.i, TextBlock, Get(d, "text").s)
      else if typ == Str("thinking_delta") && Get(d, "thinking").Str? then
        Text(index.i, ThinkingBlock, Get(d, "thinking").s)
      else if typ == Str("signature_delta") && Get(d, "signature").Str? then
        Signature(index.i, Get(d, "signature").s)
      else Improper
  }

  /** The object under usage, if there is one. */
  function UsageIn(fields: Fields): Fields
  {
    match Get(fields, "usage") case Obj(usage) => usage case _ => map[]
  }

  function EndingToken(obj: Fields): Token
  {
    var delta := Get(obj, "delta");
    if delta.Obj? && IsOneOf(Get(delta.fields, "stop_reason"), {"end_turn", "stop_sequence"})
    then Ending(Get(delta.fields, "stop_reason").s, UsageIn(obj)) else Improper
  }

  function TokenOf(m: Message): Token
  {
    if m.name == "ping" then Ping
    else if m.name == "error" || !m.body.Object? then Improper
    else
      var obj := m.body.fields;
      var typ := GetOr(obj, "type", Str(m.name));
      if typ == Str("ping") then Ping
      else if typ == Str("error") then Improper
      else if typ == Str("message_start") then
        if Get(obj, "message").Obj? then Start(Get(obj, "message").fields) else Improper
      else if typ == Str("content_block_start") then OpenToken(obj)
      else if typ == Str("content_block_delta") then DeltaToken(obj)
      else if typ == Str("content_block_stop") then
        if Get(obj, "index").Int? then Close(Get(obj, "index").i) else Improper
      else if typ == Str("message_delta") then EndingToken(obj)
      else if typ == Str("message_stop") then Stop
      else Unknown
  }

  // ---------------------------------------------------------------------------------------------
  // Runs
  // ---------------------------------------------------------------------------------------------

  /** The state after events that were all accepted, none of them after the completing one. */
  function Run(c: ClaudeState, ms: seq<Message>): Option<ClaudeState>
    requires Consistent(c)
    decreases |ms|
  {
    if ms == [] then Some(c)
    else if c.messageStop then None
    else
      match ClaudeFeed(c, ms[0])
      case Continue(next) => Run(next, ms[1..])
      case Complete(next, _) => Run(next, ms[1..])
      case Refused(_) => None
      case Raised => None
  }

  /** The same state machine driven by tokens. */
  ghost function Step(c: ClaudeState, t: Token): Option<ClaudeState>
  {
    if c.messageStop then None
    else
      match t
      case Ping => Some(c)
      case Improper => None
      case Unknown => if c.started && !c.messageDelta then Some(c) else None
      case Start(message) =>
        if c.started || c.messageDelta then None
        else Some(c.(started := true, meta := c.meta + Identity(message), usage := c.usage + UsageOf(message)))
      case Open(index, kind, initial) =>
        if c.started && !c.messageDelta && index == |c.blocks| && c.closed == |c.blocks|
        then Some(c.(blocks := c.blocks + [Block(kind, initial, None)])) else None
      case Text(index, kind, value) =>
        if c.started && !c.messageDelta && IsOpen(c, index) && c.blocks[index].kind == kind
        then Some(c.(blocks := c.blocks[index := c.blocks[index].(text := c.blocks[index].text + value)])) else None
      case Signature(index, value) =>
        if c.started && !c.messageDelta && IsOpen(c, index) && c.blocks[index].kind == ThinkingBlock
        then Some(c.(blocks := c.blocks[index := Sign(c.blocks[index], value)])) else None
      case Close(index) =>
        if c.started && !c.messageDelta && IsOpen(c, index)
        then Some(c.(closed := c.closed + 1)) else None
      case Ending(stop, usage) =>
        if c.started && !c.messageDelta && c.closed == |c.blocks|
        then Some(c.(stop := Some(stop), messageDelta := true, usage := c.usage + usage)) else None
      case Stop =>
        if c.started && c.messageDelta && c.closed == |c.blocks| then Some(c.(messageStop := true)) else None
  }

  ghost function RunTokens(c: ClaudeState, ts: seq<Token>): Option<ClaudeState>
    decreases |ts|
  {
    if ts == [] then Some(c)
    else match Step(c, ts[0]) case None => None case Some(next) => RunTokens(next, ts[1..])
  }

  ghost function Tokens(ms: seq<Message>): (ts: seq<Token>)
    ensures |ts| == |ms|
    decreases |ms|
  {
    if ms == [] then [] else [TokenOf(ms[0])] + Tokens(ms[1..])
  }

  ghost function Accepted(r: ClaudeReply): Option<ClaudeState>
  {
    if r.Continue? || r.Complete? then Some(r.state) else None
  }

  lemma OpenIsStep(c: ClaudeState, obj: Fields)
    requires Consistent(c) && c.started && !c.messageDelta
    ensures Accepted(OnBlockStart(c, obj)) == Step(c, OpenToken(obj))
  {
  }

  lemma DeltaIsStep(c: ClaudeState, obj: Fields)
    requires Consistent(c) && c.started && !c.messageDelta
    ensures Accepted(OnBlockDelta(c, obj)) == Step(c, DeltaToken(obj))
  {
  }

  lemma EndingIsStep(c: ClaudeState, obj: Fields)
    requires Consistent(c) && c.started && !c.messageDelta
    ensures Accepted(OnMessageDelta(c, obj)) == Step(c, EndingToken(obj))
  {
  }

  /** Before the message start and after the message delta, hardly anything is accepted. */
  lemma OutsideIsStep(c: ClaudeState, obj: Fields)
    requires !c.started || c.messageDelta
    ensures Step(c, OpenToken(obj)) == None && Step(c, DeltaToken(obj)) == None && Step(c, EndingToken(obj)) == None
  {
  }

  /** An event is accepted exactly when its token is, with the same effect. */
  lemma FeedIsStep(c: ClaudeState, m: Message)
    requires Consistent(c) && !c.messageStop
    ensures Accepted(ClaudeFeed(c, m)) == Step(c, TokenOf(m))
  {
    hide OnBlockStart, OnBlockDelta, OnMessageDelta, OpenToken, DeltaToken, EndingToken;
    if m.body.Object? {
      var obj := m.body.fields;
      if c.started && !c.messageDelta {
        OpenIsStep(c, obj);
        DeltaIsStep(c, obj);
        EndingIsStep(c, obj);
      } else {
        OutsideIsStep(c, obj);
      }
    }
  }

  lemma {:induction false} RunIsRunTokens(c: ClaudeState, ms: seq<Message>)
    requires Consistent(c)
    ensures Run(c, ms) == RunTokens(c, Tokens(ms))
    decreases |ms|
  {
    if ms != [] {
      hide ClaudeFeed, TokenOf, Step;
      assert Tokens(ms)[1..] == Tokens(ms[1..]);
      if c.messageStop {
        StoppedRefuses(c, TokenOf(ms[0]));
      } else {
        FeedIsStep(c, ms[0]);
        var r := ClaudeFeed(c, ms[0]);
        if r.Continue? || r.Complete? {
          RunIsRunTokens(r.state, ms[1..]);
        }
      }
    }
  }

  lemma StoppedRefuses(c: ClaudeState, t: Token)
    requires c.messageStop
    ensures Step(c, t) == None
  {
  }

  // ---------------------------------------------------------------------------------------------
  // The grammar
  // ---------------------------------------------------------------------------------------------

  datatype Piece = Add(value: string) | Mark(signature: string)

  datatype BlockShape = BlockShape(kind: Kind, initial: string, pieces: seq<Piece>)

  datatype Shape = Shape(message: Fields, blocks: seq<BlockShape>, stop: string, usage: Fields)

  /** Signatures occur in thinking blocks only. */
  ghost predicate ProperBlock(b: BlockShape)
  {
    forall i | 0 <= i < |b.pieces| :: b.pieces[i].Mark? ==> b.kind == ThinkingBlock
  }

  ghost predicate Proper(s: Shape)
  {
    forall i | 0 <= i < |s.blocks| :: ProperBlock(s.blocks[i])
  }

  ghost function PieceToken(index: int, kind: Kind, p: Piece): Token
  {
    match p case Add(value) => Text(index, kind, value) case Mark(signature) => Signature(index, signature)
  }

  ghost function PieceTokens(index: int, kind: Kind, pieces: seq<Piece>): seq<Token>
    decreases |pieces|
  {
    if pieces == [] then [] else [PieceToken(index, kind, pieces[0])] + PieceTokens(index, kind, pieces[1..])
  }

  ghost function BlockTokens(index: int, b: BlockShape): seq<Token>
  {
    [Open(index, b.kind, b.initial)] + PieceTokens(index, b.kind, b.pieces) + [Close(index)]
  }

  ghost function BlocksTokens(index: int, blocks: seq<BlockShape>): seq<Token>
    decreases |blocks|
  {
    if blocks == [] then [] else BlockTokens(index, blocks[0]) + BlocksTokens(index + 1, blocks[1..])
  }

  /** The events a message of this shape consists of. */
  ghost function Render(s: Shape): seq<Token>
  {
    [Start(s.message)] + BlocksTokens(0, s.blocks) + [Ending(s.stop, s.usage), Stop]
  }

  ghost function Apply(b: Block, p: Piece): Block
  {
    match p case Add(value) => b.(text := b.text + value) case Mark(signature) => Sign(b, signature)
  }

  ghost function ApplyAll(b: Block, pieces: seq<Piece>): Block
    decreases |pieces|
  {
    if pieces == [] then b else ApplyAll(Apply(b, pieces[0]), pieces[1..])
  }

  /** The texts of the deltas of a block, in order. */
  ghost function Added(pieces: seq<Piece>): seq<string>
    decreases |pieces|
  {
    if pieces == [] then []
    else (match pieces[0] case Add(value) => [value] case Mark(_) => []) + Added(pieces[1..])
  }

  ghost function Meaning(b: BlockShape): Block
  {
    ApplyAll(Block(b.kind, b.initial, None), b.pieces)
  }

  /** Drop what a completed run may contain anywhere or between start and end. */
  ghost function Significant(ts: seq<Token>): seq<Token>
    decreases |ts|
  {
    if ts == [] then []
    else if ts[0].Ping? || ts[0].Unknown? then Significant(ts[1..])
    else [ts[0]] + Significant(ts[1..])
  }

  /** Unknown events occur only after the message start and before the message delta. */
  ghost predicate UnknownsInside(ts: seq<Token>, started: bool, ended: bool)
    decreases |ts|
  {
    ts == [] || (
      && (ts[0].Unknown? ==> started && !ended)
      && UnknownsInside(ts[1..], started || ts[0].Start?, ended || ts[0].Ending?))
  }

  ghost predicate EndsWithStop(ts: seq<Token>) { ts != [] && ts[|ts| - 1] == Stop }

  // ---------------------------------------------------------------------------------------------
  // Insignificant events change nothing
  // ---------------------------------------------------------------------------------------------

  lemma {:induction false} SignificantEnds(ts: seq<Token>)
    requires EndsWithStop(ts)
    ensures EndsWithStop(Significant(ts))
    decreases |ts|
  {
    if |ts| > 1 {
      SignificantEnds(ts[1..]);
    } else {
      assert ts[1..] == [];
    }
  }

  lemma StepFlags(c: ClaudeState, t: Token)
    requires Step(c, t).Some?
    ensures Step(c, t).value.started == (c.started || t.Start?)
    ensures Step(c, t).value.messageDelta == (c.messageDelta || t.Ending?)
  {
  }

  lemma {:induction false} RunSignificant(c: ClaudeState, ts: seq<Token>)
    requires EndsWithStop(ts)
    ensures RunTokens(c, ts).Some? <==>
            RunTokens(c, Significant(ts)).Some? && UnknownsInside(ts, c.started, c.messageDelta)
    ensures RunTokens(c, ts).Some? ==> RunTokens(c, ts) == RunTokens(c, Significant(ts))
    decreases |ts|
  {
    hide Step;
    var t, rest := ts[0], ts[1..];
    if c.messageStop {
      StoppedRefuses(c, t);
      SignificantEnds(ts);
      StoppedRefuses(c, Significant(ts)[0]);
    } else {
      InsignificantStep(c, t);
      if Step(c, t).Some? { StepFlags(c, t); }
      if rest == [] {
        assert UnknownsInside(rest, c.started || t.Start?, c.messageDelta || t.Ending?);
        assert Significant(rest) == [];
        assert Significant(ts) == [t] && [t][1..] == rest;
      } else if Step(c, t).Some? {
        RunSignificant(Step(c, t).value, rest);
        if !t.Ping? && !t.Unknown? { assert Significant(ts)[1..] == Significant(rest); }
      } else if !t.Unknown? {
        assert Significant(ts)[0] == t;
      }
    }
  }

  lemma InsignificantStep(c: ClaudeState, t: Token)
    requires !c.messageStop
    ensures t.Ping? ==> Step(c, t) == Some(c)
    ensures t.Unknown? ==> Step(c, t) == if c.started && !c.messageDelta then Some(c) else None
  {
  }

  // ---------------------------------------------------------------------------------------------
  // Completed runs have the shape, and every shape completes
  // ---------------------------------------------------------------------------------------------

  /** The message has started and not ended, and all its blocks are closed. */
  ghost predicate Between(c: ClaudeState, n: nat)
  {
    c.started && !c.messageDelta && !c.messageStop && |c.blocks| == n && c.closed == n
  }

  /** Block n, the last one, is open. */
  ghost predicate Inside(c: ClaudeState, n: nat)
  {
    c.started && !c.messageDelta && !c.messageStop && |c.blocks| == n + 1 && c.closed == n
  }

  ghost function Opened(c: ClaudeState, n: nat, b: Block): ClaudeState
    requires n <= |c.blocks|
  {
    c.(blocks := c.blocks[..n] + [b])
  }

  ghost function Closed(c: ClaudeState, n: nat, b: Block): ClaudeState
    requires n <= |c.blocks|
  {
    c.(blocks := c.blocks[..n] + [b], closed := n + 1)
  }

  lemma OpenStep(c: ClaudeState, n: nat, t: Token)
    requires Between(c, n)
    ensures !t.Ping? && !t.Unknown? ==> (Step(c, t).Some? <==> t.Ending? || (t.Open? && t.index == n))
    ensures t.Open? && Step(c, t).Some? ==>
            Step(c, t).value == Opened(c, n, Block(t.kind, t.initial, None)) && Inside(Step(c, t).value, n)
  {
  }

  lemma InsideStep(c: ClaudeState, n: nat, t: Token)
    requires Inside(c, n) && !t.Ping? && !t.Unknown?
    ensures Step(c, t).Some? <==>
            || t == Close(n)
            || (t.Text? && t.index == n && t.kind == c.blocks[n].kind)
            || (t.Signature? && t.index == n && c.blocks[n].kind == ThinkingBlock)
    ensures t == Close(n) ==> Step(c, t).value == Closed(c, n, c.blocks[n]) && Between(Step(c, t).value, n + 1)
    ensures t.Text? && Step(c, t).Some? ==>
            Step(c, t).value == Opened(c, n, Apply(c.blocks[n], Add(t.value))) && Inside(Step(c, t).value, n)
    ensures t.Signature? && Step(c, t).Some? ==>
            Step(c, t).value == Opened(c, n, Apply(c.blocks[n], Mark(t.value))) && Inside(Step(c, t).value, n)
  {
    assert c.blocks == c.blocks[..n] + [c.blocks[n]];
  }

  ghost predicate Completes(c: ClaudeState, ts: seq<Token>)
  {
    RunTokens(c, ts).Some? && RunTokens(c, ts).value.messageStop
  }

  ghost predicate Plain(ts: seq<Token>)
  {
    forall i | 0 <= i < |ts| :: !ts[i].Ping? && !ts[i].Unknown?
  }

  /** The token is a piece of the open block. */
  ghost predicate IsPiece(t: Token, n: nat, kind: Kind, piece: Piece)
  {
    t == PieceToken(n, kind, piece) && (piece.Mark? ==> kind == ThinkingBlock)
  }

  /** Inside a block a run that completes goes on with a piece or with the closing. */
  lemma PieceOrClose(c: ClaudeState, n: nat, ts: seq<Token>) returns (piece: Piece)
    requires Inside(c, n) && Plain(ts) && Completes(c, ts) && ts[0] != Close(n)
    ensures IsPiece(ts[0], n, c.blocks[n].kind, piece) && Step(c, ts[0]).Some?
    ensures Step(c, ts[0]).value == Opened(c, n, Apply(c.blocks[n], piece)) && Inside(Step(c, ts[0]).value, n)
    ensures Step(c, ts[0]).value.blocks[n].kind == c.blocks[n].kind
    ensures Completes(Step(c, ts[0]).value, ts[1..]) && RunTokens(c, ts) == RunTokens(Step(c, ts[0]).value, ts[1..])
  {
    var t := ts[0];
    InsideStep(c, n, t);
    hide Step;
    piece := if t.Text? then Add(t.value) else Mark(t.value);
  }

  /** Inside a block, a run that completes goes on with pieces of the block and its closing. */
  lemma {:induction false} ParseBlock(c: ClaudeState, n: nat, ts: seq<Token>)
      returns (pieces: seq<Piece>, rest: seq<Token>)
    requires Inside(c, n) && Plain(ts) && Completes(c, ts)
    ensures ts == PieceTokens(n, c.blocks[n].kind, pieces) + [Close(n)] + rest
    ensures forall i | 0 <= i < |pieces| :: pieces[i].Mark? ==> c.blocks[n].kind == ThinkingBlock
    ensures var next := Closed(c, n, ApplyAll(c.blocks[n], pieces));
            Between(next, n + 1) && Plain(rest) && Completes(next, rest) && RunTokens(c, ts) == RunTokens(next, rest)
    decreases |ts|
  {
    var t := ts[0];
    if t == Close(n) {
      InsideStep(c, n, t);
      hide Step;
      pieces, rest := [], ts[1..];
      assert ts == [] + [Close(n)] + rest;
    } else {
      var piece := PieceOrClose(c, n, ts);
      var c' := Step(c, t).value;
      hide Step, Completes, RunTokens;
      var more;
      more, rest := ParseBlock(c', n, ts[1..]);
      pieces := [piece] + more;
      assert pieces[1..] == more;
      assert ts == [t] + ts[1..];
      assert Closed(c', n, ApplyAll(c'.blocks[n], more)) == Closed(c, n, ApplyAll(c.blocks[n], pieces));
    }
  }

  /** Between blocks, a run that completes goes on with whole blocks, the message delta and the stop. */
  lemma {:induction false} ParseBlocks(c: ClaudeState, n: nat, ts: seq<Token>)
      returns (blocks: seq<BlockShape>, stop: string, usage: Fields)
    requires Between(c, n) && Plain(ts) && Completes(c, ts)
    ensures ts == BlocksTokens(n, blocks) + [Ending(stop, usage), Stop]
    ensures forall i | 0 <= i < |blocks| :: ProperBlock(blocks[i])
    ensures RunTokens(c, ts).value == Finished(c, n, blocks, stop, usage)
    decreases |ts|
  {
    hide Step;
    var t := ts[0];
    OpenStep(c, n, t);
    if t.Ending? {
      blocks, stop, usage := [], t.stop, t.usage;
      EndingThenStop(c, n, ts);
    } else {
      var b, rest := ParseOne(c, n, ts);
      var next, more := Closed(c, n, Meaning(b)), [];
      more, stop, usage := ParseBlocks(next, n + 1, rest);
      blocks := [b] + more;
      assert blocks[1..] == more;
      assert BlocksTokens(n, blocks) == BlockTokens(n, b) + BlocksTokens(n + 1, more);
      FinishedCons(c, n, b, more, stop, usage);
    }
  }

  lemma ParseOne(c: ClaudeState, n: nat, ts: seq<Token>) returns (b: BlockShape, rest: seq<Token>)
    requires Between(c, n) && Plain(ts) && Completes(c, ts) && ts != [] && !ts[0].Ending?
    ensures ts == BlockTokens(n, b) + rest && ProperBlock(b) && |rest| < |ts|
    ensures var next := Closed(c, n, Meaning(b));
            Between(next, n + 1) && Plain(rest) && Completes(next, rest) && RunTokens(c, ts) == RunTokens(next, rest)
  {
    hide Step;
    var t := ts[0];
    OpenStep(c, n, t);
    var c' := Step(c, t).value;
    var pieces;
    pieces, rest := ParseBlock(c', n, ts[1..]);
    b := BlockShape(t.kind, t.initial, pieces);
    assert Closed(c', n, ApplyAll(c'.blocks[n], pieces)) == Closed(c, n, Meaning(b));
    assert ts == [t] + ts[1..];
  }

  ghost function Meanings(blocks: seq<BlockShape>): (r: seq<Block>)
    ensures |r| == |blocks|
    ensures forall i | 0 <= i < |blocks| :: r[i] == Meaning(blocks[i])
  {
    seq(|blocks|, i requires 0 <= i < |blocks| => Meaning(blocks[i]))
  }

  /** The state that `blocks`, a message delta and the stop lead to from between blocks. */
  ghost function Finished(c: ClaudeState, n: nat, blocks: seq<BlockShape>, stop: string, usage: Fields): ClaudeState
  {
    c.(blocks := c.blocks + Meanings(blocks), closed := n + |blocks|, stop := Some(stop), messageDelta := true,
       usage := c.usage + usage, messageStop := true)
  }

  lemma FinishedCons(c: ClaudeState, n: nat, b: BlockShape, more: seq<BlockShape>, stop: string, usage: Fields)
    requires |c.blocks| == n
    ensures Finished(c, n, [b] + more, stop, usage) == Finished(Closed(c, n, Meaning(b)), n + 1, more, stop, usage)
  {
    assert Meanings([b] + more) == [Meaning(b)] + Meanings(more);
    assert c.blocks[..n] == c.blocks;
    assert c.blocks + ([Meaning(b)] + Meanings(more)) == c.blocks + [Meaning(b)] + Meanings(more);
  }

  lemma EndingThenStop(c: ClaudeState, n: nat, ts: seq<Token>)
    requires Between(c, n) && Plain(ts) && ts != [] && ts[0].Ending? && Completes(c, ts)
    ensures ts == [ts[0], Stop]
    ensures RunTokens(c, ts).value == Finished(c, n, [], ts[0].stop, ts[0].usage)
  {
    var c' := Step(c, ts[0]).value;
    StoppedRunIsOver(c', ts[1..]);
    assert ts == [ts[0]] + ts[1..];
  }

  lemma StoppedRunIsOver(c: ClaudeState, ts: seq<Token>)
    requires c.messageDelta && !c.messageStop && Plain(ts) && Completes(c, ts)
    ensures ts == [Stop] && RunTokens(c, ts) == Some(c.(messageStop := true))
  {
    var next := Step(c, ts[0]).value;
    NothingAfterStop(next, ts[1..]);
  }

  lemma NothingAfterStop(c: ClaudeState, ts: seq<Token>)
    requires c.messageStop && RunTokens(c, ts).Some?
    ensures ts == []
  {
    forall t ensures Step(c, t) == None { StoppedRefuses(c, t); }
  }

  lemma {:induction false} RunConcat(c: ClaudeState, a: seq<Token>, b: seq<Token>)
    ensures RunTokens(c, a + b) ==
            match RunTokens(c, a) case None => None case Some(next) => RunTokens(next, b)
    decreases |a|
  {
    hide Step;
    if a == [] {
      assert a + b == b;
    } else {
      assert (a + b)[1..] == a[1..] + b;
      if Step(c, a[0]).Some? { RunConcat(Step(c, a[0]).value, a[1..], b); }
    }
  }

  lemma {:induction false} RunPieces(c: ClaudeState, n: nat, pieces: seq<Piece>)
    requires Inside(c, n)
    requires forall i | 0 <= i < |pieces| :: pieces[i].Mark? ==> c.blocks[n].kind == ThinkingBlock
    ensures RunTokens(c, PieceTokens(n, c.blocks[n].kind, pieces)) == Some(Opened(c, n, ApplyAll(c.blocks[n], pieces)))
    ensures Inside(Opened(c, n, ApplyAll(c.blocks[n], pieces)), n)
    decreases |pieces|
  {
    hide Step;
    if pieces == [] {
      assert c.blocks == c.blocks[..n] + [c.blocks[n]];
    } else {
      var t := PieceToken(n, c.blocks[n].kind, pieces[0]);
      InsideStep(c, n, t);
      var c' := Step(c, t).value;
      RunPieces(c', n, pieces[1..]);
      assert PieceTokens(n, c.blocks[n].kind, pieces)[1..] == PieceTokens(n, c.blocks[n].kind, pieces[1..]);
      assert Opened(c', n, ApplyAll(c'.blocks[n], pieces[1..])) == Opened(c, n, ApplyAll(c.blocks[n], pieces));
    }
  }

  lemma RunBlock(c: ClaudeState, n: nat, b: BlockShape)
    requires Between(c, n) && ProperBlock(b)
    ensures RunTokens(c, BlockTokens(n, b)) == Some(Closed(c, n, Meaning(b)))
    ensures Between(Closed(c, n, Meaning(b)), n + 1)
  {
    hide Step;
    var open, close := Open(n, b.kind, b.initial), Close(n);
    OpenStep(c, n, open);
    var c1 := Step(c, open).value;
    RunPieces(c1, n, b.pieces);
    var c2 := Opened(c1, n, ApplyAll(c1.blocks[n], b.pieces));
    InsideStep(c2, n, close);
    RunOne(c2, close);
    RunConcat(c1, PieceTokens(n, b.kind, b.pieces), [close]);
    assert BlockTokens(n, b) == [open] + (PieceTokens(n, b.kind, b.pieces) + [close]);
    RunOne(c, open);
    RunConcat(c, [open], PieceTokens(n, b.kind, b.pieces) + [close]);
    assert Closed(c2, n, c2.blocks[n]) == Closed(c, n, Meaning(b));
  }

  lemma RunOne(c: ClaudeState, t: Token)
    ensures RunTokens(c, [t]) == Step(c, t)
  {
    hide Step;
    assert [t][1..] == [];
  }

  lemma EndingRuns(c: ClaudeState, n: nat, stop: string, usage: Fields)
    requires Between(c, n)
    ensures RunTokens(c, [Ending(stop, usage), Stop]) == Some(Finished(c, n, [], stop, usage))
  {
    assert [Ending(stop, usage), Stop][1..] == [Stop];
    assert c.blocks + Meanings([]) == c.blocks;
    RunOne(Step(c, Ending(stop, usage)).value, Stop);
  }

  lemma {:induction false} RunBlocks(c: ClaudeState, n: nat, blocks: seq<BlockShape>, stop: string, usage: Fields)
    requires Between(c, n)
    requires forall i | 0 <= i < |blocks| :: ProperBlock(blocks[i])
    ensures RunTokens(c, BlocksTokens(n, blocks) + [Ending(stop, usage), Stop])
         == Some(Finished(c, n, blocks, stop, usage))
    decreases |blocks|
  {
    var end := [Ending(stop, usage), Stop];
    if blocks == [] {
      assert BlocksTokens(n, blocks) + end == end;
      EndingRuns(c, n, stop, usage);
    } else {
      hide Step, Between;
      RunBlock(c, n, blocks[0]);
      RunBlocks(Closed(c, n, Meaning(blocks[0])), n + 1, blocks[1..], stop, usage);
      var rest := BlocksTokens(n + 1, blocks[1..]) + end;
      assert BlocksTokens(n, blocks) + end == BlockTokens(n, blocks[0]) + rest;
      RunConcat(c, BlockTokens(n, blocks[0]), rest);
      FinishedCons(c, n, blocks[0], blocks[1..], stop, usage);
      assert [blocks[0]] + blocks[1..] == blocks;
    }
  }

  /** What the answer must be for a message of the given shape. */
  ghost predicate Answers(c: ClaudeState, s: Shape)
  {
    && c.blocks == Meanings(s.blocks)
    && c.stop == Some(s.stop) && Keeps(c.meta, s.message) && c.usage == UsageIn(s.message) + s.usage
  }

  /** The four identity keys the message has, with their values, and no others. */
  ghost predicate Keeps(meta: Fields, message: Fields)
  {
    && (forall key :: key in meta <==> key in message && (key == "id" || key == "type" || key == "role" || key == "model"))
    && (forall key | key in meta && key in message :: meta[key] == message[key])
  }

  ghost function AfterStart(message: Fields): ClaudeState
  {
    CLAUDE_START.(started := true, meta := CLAUDE_START.meta + Identity(message),
                  usage := CLAUDE_START.usage + UsageOf(message))
  }

  lemma AfterStartBetween(message: Fields)
    ensures Between(AfterStart(message), 0)
    ensures Keeps(AfterStart(message).meta, message) && AfterStart(message).usage == UsageIn(message)
    ensures Step(CLAUDE_START, Start(message)) == Some(AfterStart(message))
  {
    assert map[] + Identity(message) == Identity(message);
    assert map[] + UsageOf(message) == UsageOf(message);
  }

  lemma FinishedAnswers(s: Shape)
    ensures Answers(Finished(AfterStart(s.message), 0, s.blocks, s.stop, s.usage), s)
    ensures Finished(AfterStart(s.message), 0, s.blocks, s.stop, s.usage).messageStop
  {
    hide Meanings, Keeps, UsageIn;
    AfterStartBetween(s.message);
    assert [] + Meanings(s.blocks) == Meanings(s.blocks);
  }

  lemma {:induction false} SignificantIsPlain(ts: seq<Token>)
    ensures Plain(Significant(ts))
    decreases |ts|
  {
    if ts != [] { SignificantIsPlain(ts[1..]); }
  }

  lemma FirstIsStart(t: Token)
    requires Step(CLAUDE_START, t).Some? && !t.Ping?
    ensures t.Start?
  {
  }

  /** A completed run has the shape of a message, and its blocks mean what the shape says. */
  lemma CompletedHasShape(ts: seq<Token>) returns (s: Shape)
    requires Completes(CLAUDE_START, ts) && Plain(ts)
    ensures Proper(s) && ts == Render(s) && Answers(RunTokens(CLAUDE_START, ts).value, s)
  {
    hide Step, Between, Answers, Finished, AfterStart;
    FirstIsStart(ts[0]);
    var message := ts[0].message;
    AfterStartBetween(message);
    var c := AfterStart(message);
    var blocks, stop, usage := ParseBlocks(c, 0, ts[1..]);
    s := Shape(message, blocks, stop, usage);
    FinishedAnswers(s);
    assert ts == [ts[0]] + ts[1..];
  }

  lemma ShapeCompletes(s: Shape)
    requires Proper(s)
    ensures Completes(CLAUDE_START, Render(s)) && Answers(RunTokens(CLAUDE_START, Render(s)).value, s)
  {
    hide Step, Between, Answers, Finished, AfterStart;
    AfterStartBetween(s.message);
    var c := AfterStart(s.message);
    RunBlocks(c, 0, s.blocks, s.stop, s.usage);
    FinishedAnswers(s);
    assert Render(s)[1..] == BlocksTokens(0, s.blocks) + [Ending(s.stop, s.usage), Stop];
  }

  /** The stream of events is a whole message of shape `s`, with pings anywhere before its end and
      unknown events only between its start and its message delta. */
  ghost predicate IsMessage(ms: seq<Message>, s: Shape)
  {
    var ts := Tokens(ms);
    Proper(s) && Significant(ts) == Render(s) && UnknownsInside(ts, false, false) && EndsWithStop(ts)
  }

  lemma {:induction false} CompletedEndsWithStop(c: ClaudeState, ts: seq<Token>)
    requires Completes(c, ts) && !c.messageStop
    ensures EndsWithStop(ts)
    decreases |ts|
  {
    var c' := Step(c, ts[0]).value;
    if c'.messageStop {
      NothingAfterStop(c', ts[1..]);
    } else {
      CompletedEndsWithStop(c', ts[1..]);
    }
  }

  /** A run of Claude events completes exactly when the events are a whole message, and then its
      state holds exactly what that message says. */
  lemma ClaudeCompletesExactlyOnMessages(ms: seq<Message>)
    ensures (Run(CLAUDE_START, ms).Some? && Run(CLAUDE_START, ms).value.messageStop)
       <==> exists s :: IsMessage(ms, s)
    ensures forall s :: IsMessage(ms, s) ==>
            Run(CLAUDE_START, ms).Some? && Answers(Run(CLAUDE_START, ms).value, s)
  {
    hide Step, Render, Answers, Tokens, Run, UnknownsInside, Proper;
    var ts := Tokens(ms);
    RunIsRunTokens(CLAUDE_START, ms);
    if Completes(CLAUDE_START, ts) {
      CompletedEndsWithStop(CLAUDE_START, ts);
      RunSignificant(CLAUDE_START, ts);
      SignificantIsPlain(ts);
      var s := CompletedHasShape(Significant(ts));
      assert IsMessage(ms, s);
    }
    forall s | IsMessage(ms, s)
      ensures Run(CLAUDE_START, ms).Some? && Answers(Run(CLAUDE_START, ms).value, s)
      ensures Run(CLAUDE_START, ms).value.messageStop
    {
      RunSignificant(CLAUDE_START, ts);
      ShapeCompletes(s);
    }
  }

  /** The text of a block is its initial text followed by exactly its deltas, in order. */
  lemma {:induction false} ApplyAllText(b: Block, pieces: seq<Piece>)
    ensures ApplyAll(b, pieces).text == b.text + Concat(Added(pieces))
    ensures ApplyAll(b, pieces).kind == b.kind
    decreases |pieces|
  {
    if pieces != [] {
      ApplyAllText(Apply(b, pieces[0]), pieces[1..]);
      match pieces[0] {
        case Add(value) =>
          ConcatAppend([value], Added(pieces[1..]));
          ConcatOne(value);
        case Mark(_) =>
          assert [] + Added(pieces[1..]) == Added(pieces[1..]);
      }
    }
  }

  /** The signatures of a block, in order. */
  ghost function Marked(pieces: seq<Piece>): seq<string>
    decreases |pieces|
  {
    if pieces == [] then []
    else (match pieces[0] case Add(_) => [] case Mark(signature) => [signature]) + Marked(pieces[1..])
  }

  ghost function SignedWith(before: Option<string>, marks: seq<string>): Option<string>
  {
    if marks == [] then before
    else Some((match before case None => "" case Some(s) => s) + Concat(marks))
  }

  lemma {:induction false} ApplyAllSignature(b: Block, pieces: seq<Piece>)
    ensures ApplyAll(b, pieces).signature == SignedWith(b.signature, Marked(pieces))
    decreases |pieces|
  {
    if pieces != [] {
      ApplyAllSignature(Apply(b, pieces[0]), pieces[1..]);
      var rest := Marked(pieces[1..]);
      match pieces[0] {
        case Add(_) =>
          assert [] + rest == rest;
        case Mark(signature) =>
          ConcatAppend([signature], rest);
          ConcatOne(signature);
          SignedTwice(b.signature, signature, rest);
      }
    }
  }

  lemma SignedTwice(before: Option<string>, signature: string, rest: seq<string>)
    requires Concat([signature] + rest) == signature + Concat(rest)
    ensures SignedWith(Sign(Block(TextBlock, "", before), signature).signature, rest) == SignedWith(before, [signature] + rest)
  {
    if rest == [] {
      assert [signature] + rest == [signature];
      assert Concat(rest) == "";
      assert signature + "" == signature;
      assert "" + signature == signature;
    } else if before.Some? {
      assert before.value + signature + Concat(rest) == before.value + (signature + Concat(rest));
    } else {
      assert "" + (signature + Concat(rest)) == signature + Concat(rest);
    }
  }

  /** A block has its initial text followed by its text deltas, and its signatures joined. */
  lemma BlockTextIsInitialThenDeltas(b: BlockShape)
    ensures Meaning(b).text == b.initial + Concat(Added(b.pieces)) && Meaning(b).kind == b.kind
    ensures Meaning(b).signature == if Marked(b.pieces) == [] then None else Some(Concat(Marked(b.pieces)))
  {
    ApplyAllText(Block(b.kind, b.initial, None), b.pieces);
    ApplyAllSignature(Block(b.kind, b.initial, None), b.pieces);
    assert "" + Concat(Marked(b.pieces)) == Concat(Marked(b.pieces));
  }

  /** At every point of every accepted run at most the last block is open, and none once the message
      delta has come. */
  lemma {:induction false} AtMostLastBlockOpen(c: ClaudeState, ms: seq<Message>)
    requires Consistent(c)
    ensures Run(c, ms).Some? ==>
            var r := Run(c, ms).value;
            r.closed <= |r.blocks| <= r.closed + 1 && (r.messageDelta ==> r.closed == |r.blocks|)
    decreases |ms|
  {
    hide ClaudeFeed;
    if ms != [] && !c.messageStop {
      var r := ClaudeFeed(c, ms[0]);
      if r.Continue? || r.Complete? { AtMostLastBlockOpen(r.state, ms[1..]); }
    }
  }
}
