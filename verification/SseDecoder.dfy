/**
 The incremental Server-Sent Events decoder of `okxquant_backend/llm_stream.py`.

 `FeedByte`, `FeedBytes`, `FeedChunk` and `FinishDecoder` say what one byte, one run of bytes, one
 chunk and the end of input do to the decoder's value; class `SSEDecoder` is the object with mutable
 fields, whose methods are proved to do exactly that.
 */
module SseDecoder {
  import opened Options
  import opened Text

  datatype Category =
    | EventTooLarge | ResponseTooLarge | InvalidUtf8 | DataAfterEof | DataAfterTerminal

  datatype Event = Event(name: Bytes, data: Bytes)

  datatype Limits = Limits(maxEvent: nat, maxResponse: nat)

  /** The part of the decoder that the bytes themselves drive. */
  datatype Parser = Parser(
    line: Bytes, lineBytes: nat, pendingCr: bool, data: seq<Bytes>, eventName: Bytes,
    eventBytes: nat, sawComment: bool, heartbeats: nat, firstLine: bool)

  datatype Decoder = Decoder(parser: Parser, responseBytes: nat, finished: bool)

  /** `Next`: carry on from `state` with `events` decoded; `Stop`: an error was raised in `state`. */
  datatype Step<S> =
    | Next(state: S, events: seq<Event>)
    | Stop(state: S, category: Category)

  const START := Parser([], 0, false, [], MESSAGE, 0, false, 0, true)
  const FRESH := Decoder(START, 0, false)

  /** Put already decoded events in front of what comes next; an error loses them. */
  function Prepend<S>(events: seq<Event>, step: Step<S>): Step<S>
  {
    match step
    case Next(s, more) => Next(s, events + more)
    case Stop(s, c) => Stop(s, c)
  }

  lemma PrependTwice<S>(a: seq<Event>, b: seq<Event>, step: Step<S>)
    ensures Prepend(a + b, step) == Prepend(a, Prepend(b, step))
  {
    if step.Next? {
      assert a + b + step.events == a + (b + step.events);
    }
  }

  function StripBom(text: Bytes): Bytes
  {
    if BOM <= text then text[3..] else text
  }

  /** The text of a line: a byte order mark is dropped from the first line only. */
  function LineText(p: Parser): Bytes
  {
    if p.firstLine then StripBom(p.line) else p.line
  }

  /** The value after the first colon, less one leading space. */
  function FieldValue(text: Bytes): Bytes
  {
    var k := Find(text, COLON);
    if k == |text| then []
    else if k + 1 < |text| && text[k + 1] == SPACE then text[k + 2..]
    else text[k + 1..]
  }

  function Dispatch(p: Parser): (Parser, seq<Event>)
  {
    var cleared := p.(data := [], eventName := MESSAGE, eventBytes := 0, sawComment := false);
    if p.data == [] then (cleared, [])
    else
      (if Lower(p.eventName) == PING || Lower(p.eventName) == HEARTBEAT
       then cleared.(heartbeats := p.heartbeats + 1) else cleared,
       [Event(p.eventName, Join(p.data))])
  }

  function ApplyField(p: Parser, text: Bytes): Parser
  {
    var field := text[..Find(text, COLON)];
    var value := FieldValue(text);
    if field == DATA_FIELD then p.(data := p.data + [value])
    else if field == EVENT_FIELD then p.(eventName := if value == [] then MESSAGE else value)
    else p
  }

  /** A complete line has been collected in `p.line`. */
  function LineReady(p: Parser, lim: Limits): Step<Parser>
  {
    var taken := p.(line := [], lineBytes := 0);
    if !ValidUtf8(p.line) then Stop(taken, InvalidUtf8)
    else
      var text := LineText(p);
      var decoded := taken.(firstLine := false);
      if text == [] then
        var (next, events) := Dispatch(decoded);
        Next(next, events)
      else
        StoreLine(decoded, |p.line| + 1, text, lim)
  }

  /** A non-blank line is charged to the event with its terminator, then kept, counted or ignored. */
  function StoreLine(p: Parser, charge: nat, text: Bytes, lim: Limits): Step<Parser>
    requires text != []
  {
    var charged := p.(eventBytes := p.eventBytes + charge);
    if charged.eventBytes > lim.maxEvent then Stop(charged, EventTooLarge)
    else if text[0] == COLON then
      Next(charged.(heartbeats := p.heartbeats + 1, sawComment := true), [])
    else Next(ApplyField(charged, text), [])
  }

  /** A byte with no CR pending before it. */
  function TakeByte(p: Parser, b: Byte, lim: Limits): Step<Parser>
  {
    if b == CR then
      var q := p.(pendingCr := true);
      if p.lineBytes + p.eventBytes + 1 > lim.maxEvent then Stop(q, EventTooLarge) else Next(q, [])
    else if b == LF then LineReady(p, lim)
    else
      var q := p.(line := p.line + [b], lineBytes := p.lineBytes + 1);
      if q.lineBytes + q.eventBytes > lim.maxEvent then Stop(q, EventTooLarge) else Next(q, [])
  }

  function FeedByte(p: Parser, b: Byte, lim: Limits): Step<Parser>
  {
    if p.pendingCr then
      var ended := LineReady(p.(pendingCr := false), lim);
      if ended.Stop? || b == LF then ended
      else Prepend(ended.events, TakeByte(ended.state, b, lim))
    else TakeByte(p, b, lim)
  }

  function FeedBytes(p: Parser, bytes: Bytes, lim: Limits): Step<Parser>
    decreases |bytes|
  {
    if bytes == [] then Next(p, [])
    else
      var first := FeedByte(p, bytes[0], lim);
      if first.Stop? then first else Prepend(first.events, FeedBytes(first.state, bytes[1..], lim))
  }

  function FeedChunk(d: Decoder, chunk: Bytes, lim: Limits): Step<Decoder>
  {
    if d.finished then Stop(d, DataAfterEof)
    else
      var counted := d.(responseBytes := d.responseBytes + |chunk|);
      if counted.responseBytes > lim.maxResponse then Stop(counted, ResponseTooLarge)
      else
        match FeedBytes(d.parser, chunk, lim)
        case Next(p, events) => Next(counted.(parser := p), events)
        case Stop(p, category) => Stop(counted.(parser := p), category)
  }

  /** End of input: a pending CR ends its line, any other partial line is only checked. */
  function FinishParser(p: Parser, lim: Limits): Step<Parser>
  {
    if p.pendingCr then LineReady(p.(pendingCr := false), lim)
    else if p.line != [] then LineReady(p, lim)
    else Next(p, [])
  }

  function FinishDecoder(d: Decoder, lim: Limits): Step<Decoder>
  {
    if d.finished then Next(d, [])
    else
      match FinishParser(d.parser, lim)
      case Next(p, events) => Next(d.(parser := p, finished := true), events)
      case Stop(p, category) => Stop(d.(parser := p, finished := true), category)
  }

  /** What partial data behind a complete answer is refused with, if it may not be discarded. */
  function TailFault(p: Parser): Option<Category>
  {
    if p.data != [] || p.eventName != MESSAGE then Some(DataAfterTerminal)
    else if p.line == [] then None
    else if !ValidUtf8(p.line) then Some(InvalidUtf8)
    else if Blank(LineText(p)) || (LineText(p) != [] && LineText(p)[0] == COLON) then None
    else Some(DataAfterTerminal)
  }

  predicate TailDiscardable(p: Parser)
  {
    TailFault(p).None?
  }

  function FeedChunks(d: Decoder, chunks: seq<Bytes>, lim: Limits): Step<Decoder>
    decreases |chunks|
  {
    if chunks == [] then Next(d, [])
    else
      var first := FeedChunk(d, chunks[0], lim);
      if first.Stop? then first else Prepend(first.events, FeedChunks(first.state, chunks[1..], lim))
  }

  /** A whole session: a fresh decoder, every chunk fed, then the end of input. */
  function DecodeSession(chunks: seq<Bytes>, lim: Limits): Step<Decoder>
  {
    var fed := FeedChunks(FRESH, chunks, lim);
    if fed.Stop? then fed else Prepend(fed.events, FinishDecoder(fed.state, lim))
  }

  // ---------------------------------------------------------------------------------------------
  // Chunk boundaries do not matter
  // ---------------------------------------------------------------------------------------------

  lemma {:induction false} FeedBytesConcat(p: Parser, a: Bytes, b: Bytes, lim: Limits)
    ensures FeedBytes(p, a + b, lim) ==
            var first := FeedBytes(p, a, lim);
            if first.Stop? then first else Prepend(first.events, FeedBytes(first.state, b, lim))
    decreases |a|
  {
    hide FeedByte;
    if a == [] {
      assert a + b == b;
    } else {
      assert (a + b)[0] == a[0] && (a + b)[1..] == a[1..] + b;
      var step := FeedByte(p, a[0], lim);
      if step.Next? {
        FeedBytesConcat(step.state, a[1..], b, lim);
        var rest := FeedBytes(step.state, a[1..], lim);
        if rest.Next? {
          PrependTwice(step.events, rest.events, FeedBytes(rest.state, b, lim));
        }
      }
    }
  }

  lemma FeedNothing(d: Decoder, lim: Limits)
    requires !d.finished && d.responseBytes <= lim.maxResponse
    ensures FeedChunk(d, [], lim) == Next(d, [])
  {
  }

  lemma FeedChunkConcat(d: Decoder, a: Bytes, b: Bytes, lim: Limits)
    requires !d.finished
    ensures var first, whole := FeedChunk(d, a, lim), FeedChunk(d, a + b, lim);
            && (whole.Next? <==> first.Next? && FeedChunk(first.state, b, lim).Next?)
            && (whole.Next? ==> whole == Prepend(first.events, FeedChunk(first.state, b, lim)))
            && (first.Next? ==> !first.state.finished && first.state.responseBytes <= lim.maxResponse)
  {
    hide FeedBytes;
    FeedBytesConcat(d.parser, a, b, lim);
  }

  /** Feeding chunk by chunk succeeds exactly when feeding the concatenation as one chunk does, and
      then leaves the same decoder and yields the same events. */
  lemma {:induction false} ChunksAreOneChunk(d: Decoder, chunks: seq<Bytes>, lim: Limits)
    requires !d.finished && d.responseBytes <= lim.maxResponse
    ensures var whole := FeedChunk(d, Flatten(chunks), lim);
            var parts := FeedChunks(d, chunks, lim);
            && (parts.Next? <==> whole.Next?)
            && (parts.Next? ==> parts == whole)
    decreases |chunks|
  {
    if chunks == [] {
      FeedNothing(d, lim);
    } else {
      hide FeedChunk;
      var c, rest := chunks[0], Flatten(chunks[1..]);
      FeedChunkConcat(d, c, rest, lim);
      var first := FeedChunk(d, c, lim);
      if first.Next? {
        ChunksAreOneChunk(first.state, chunks[1..], lim);
      }
    }
  }

  lemma FeedBytesSnoc(p: Parser, a: Bytes, b: Byte, lim: Limits)
    ensures FeedBytes(p, a + [b], lim) ==
            var first := FeedBytes(p, a, lim);
            if first.Stop? then first else Prepend(first.events, FeedByte(first.state, b, lim))
  {
    hide FeedByte;
    FeedBytesConcat(p, a, [b], lim);
    var first := FeedBytes(p, a, lim);
    if first.Next? {
      var last := FeedByte(first.state, b, lim);
      if last.Next? {
        assert FeedBytes(last.state, [][..], lim) == Next(last.state, []);
        assert last.events + [] == last.events;
      }
    }
  }

  /** Any two ways of cutting one byte stream succeed together, and then agree on the decoder and on
      every event. */
  lemma ChunkingIrrelevant(a: seq<Bytes>, b: seq<Bytes>, lim: Limits)
    requires Flatten(a) == Flatten(b)
    ensures FeedChunks(FRESH, a, lim).Next? <==> FeedChunks(FRESH, b, lim).Next?
    ensures FeedChunks(FRESH, a, lim).Next? ==> FeedChunks(FRESH, a, lim) == FeedChunks(FRESH, b, lim)
    ensures DecodeSession(a, lim).Next? <==> DecodeSession(b, lim).Next?
    ensures DecodeSession(a, lim).Next? ==> DecodeSession(a, lim) == DecodeSession(b, lim)
  {
    ChunksAreOneChunk(FRESH, a, lim);
    ChunksAreOneChunk(FRESH, b, lim);
  }

  /** What a longer stream yields starts with what its prefix yields. */
  lemma FeedPrefix(a: Bytes, b: Bytes, lim: Limits)
    requires a <= b && FeedBytes(START, b, lim).Next?
    ensures FeedBytes(START, a, lim).Next?
    ensures FeedBytes(START, a, lim).events <= FeedBytes(START, b, lim).events
  {
    assert b == a + b[|a|..];
    FeedBytesConcat(START, a, b[|a|..], lim);
  }

  // ---------------------------------------------------------------------------------------------
  // Bounded memory
  // ---------------------------------------------------------------------------------------------

  function Held(parts: seq<Bytes>): nat
  {
    if parts == [] then 0 else Held(parts[..|parts| - 1]) + |parts[|parts| - 1]| + 1
  }

  /** Everything the decoder buffers: the partial line, the data lines and a non-default name. */
  function Buffered(p: Parser): nat
  {
    |p.line| + Held(p.data) + (if p.eventName == MESSAGE then 0 else |p.eventName|)
  }

  predicate Bounded(p: Parser, lim: Limits)
  {
    && p.lineBytes == |p.line|
    && OneLine(p.line)
    && Buffered(p) <= |p.line| + p.eventBytes
    && |p.line| + p.eventBytes + (if p.pendingCr then 1 else 0) <= lim.maxEvent
    && (p.firstLine ==> p.data == [] && p.eventName == MESSAGE && p.eventBytes == 0)
  }

  lemma FieldValueShorter(text: Bytes)
    requires text[..Find(text, COLON)] == DATA_FIELD || text[..Find(text, COLON)] == EVENT_FIELD
    ensures |FieldValue(text)| < |text|
  {
    assert |text[..Find(text, COLON)]| >= 4;
  }

  lemma LineReadyBounded(p: Parser, lim: Limits)
    requires Bounded(p.(pendingCr := false), lim) && LineReady(p, lim).Next?
    requires !p.pendingCr
    ensures Bounded(LineReady(p, lim).state, lim)
    ensures !LineReady(p, lim).state.pendingCr && LineReady(p, lim).state.line == []
  {
    var text := LineText(p);
    if text != [] && text[0] != COLON {
      var field := text[..Find(text, COLON)];
      if field == DATA_FIELD || field == EVENT_FIELD {
        FieldValueShorter(text);
        assert (p.data + [FieldValue(text)])[..|p.data|] == p.data;
      }
    }
  }

  lemma TakeByteBounded(p: Parser, b: Byte, lim: Limits)
    requires Bounded(p, lim) && !p.pendingCr && TakeByte(p, b, lim).Next?
    ensures Bounded(TakeByte(p, b, lim).state, lim)
  {
    if b == LF { LineReadyBounded(p, lim); }
  }

  lemma FeedByteBounded(p: Parser, b: Byte, lim: Limits)
    requires Bounded(p, lim) && FeedByte(p, b, lim).Next?
    ensures Bounded(FeedByte(p, b, lim).state, lim)
  {
    if p.pendingCr {
      LineReadyBounded(p.(pendingCr := false), lim);
      var ended := LineReady(p.(pendingCr := false), lim);
      if b != LF { TakeByteBounded(ended.state, b, lim); }
    } else {
      TakeByteBounded(p, b, lim);
    }
  }

  lemma {:induction false} FeedBytesBounded(p: Parser, bytes: Bytes, lim: Limits)
    requires Bounded(p, lim) && FeedBytes(p, bytes, lim).Next?
    ensures Bounded(FeedBytes(p, bytes, lim).state, lim)
    decreases |bytes|
  {
    if bytes != [] {
      FeedByteBounded(p, bytes[0], lim);
      FeedBytesBounded(FeedByte(p, bytes[0], lim).state, bytes[1..], lim);
    }
  }

  /** Whatever arrives, a decoder that has not failed never buffers more than one event's limit. */
  lemma BufferNeverExceedsLimit(chunks: seq<Bytes>, lim: Limits)
    requires FeedChunks(FRESH, chunks, lim).Next?
    ensures Buffered(FeedChunks(FRESH, chunks, lim).state.parser) <= lim.maxEvent
  {
    ChunksAreOneChunk(FRESH, chunks, lim);
    FeedBytesBounded(START, Flatten(chunks), lim);
  }

  // ---------------------------------------------------------------------------------------------
  // End of input completes nothing by itself
  // ---------------------------------------------------------------------------------------------

  /** The end of input yields an event exactly when the last byte is a CR that ends a blank line after
      some data; no other stream gets an event completed for it. */
  lemma EndOfInputCompletesNothing(bytes: Bytes, lim: Limits)
    requires FeedBytes(START, bytes, lim).Next?
    ensures var p := FeedBytes(START, bytes, lim).state;
            var end := FinishParser(p, lim);
            && (end.Next? ==> (end.events != [] <==> p.pendingCr && p.line == [] && p.data != []))
            && (p.pendingCr ==> bytes != [] && bytes[|bytes| - 1] == CR)
  {
    hide FeedByte;
    if bytes != [] {
      var front, last := bytes[..|bytes| - 1], bytes[|bytes| - 1];
      assert bytes == front + [last];
      FeedBytesSnoc(START, front, last, lim);
      FeedBytesBounded(START, front, lim);
      var q := FeedBytes(START, front, lim).state;
      FeedByteBounded(q, last, lim);
      var p := FeedByte(q, last, lim).state;
      EndYieldsOnlyAfterCr(p, lim);
      PendingOnlyAfterCr(q, last, lim);
    } else {
      EndYieldsOnlyAfterCr(START, lim);
    }
  }

  lemma EndYieldsOnlyAfterCr(p: Parser, lim: Limits)
    requires Bounded(p, lim)
    ensures FinishParser(p, lim).Next? ==>
              (FinishParser(p, lim).events != [] <==> p.pendingCr && p.line == [] && p.data != [])
  {
  }

  lemma PendingOnlyAfterCr(q: Parser, b: Byte, lim: Limits)
    requires Bounded(q, lim)
    ensures FeedByte(q, b, lim).Next? && FeedByte(q, b, lim).state.pendingCr ==> b == CR
  {
    if q.pendingCr {
      if LineReady(q.(pendingCr := false), lim).Next? { LineReadyBounded(q.(pendingCr := false), lim); }
    } else if b == LF && LineReady(q, lim).Next? {
      LineReadyBounded(q, lim);
    }
  }

  // ---------------------------------------------------------------------------------------------
  // The object
  // ---------------------------------------------------------------------------------------------

  datatype Fed = Events(events: seq<Event>) | Error(category: Category)

  /** What the caller sees of a step: the events, or the category of the error. */
  function Seen<S>(step: Step<S>): Fed
  {
    match step
    case Next(_, events) => Events(events)
    case Stop(_, category) => Error(category)
  }

  class SSEDecoder {
    const limits: Limits
    var responseBytes: nat
    var line: Bytes
    var lineBytes: nat
    var pendingCr: bool
    var data: seq<Bytes>
    var eventName: Bytes
    var eventBytes: nat
    var sawComment: bool
    var heartbeatCount: nat
    var isFinished: bool
    var firstLine: bool

    ghost function ParserState(): Parser
      reads this
    {
      Parser(line, lineBytes, pendingCr, data, eventName, eventBytes, sawComment, heartbeatCount, firstLine)
    }

    ghost function State(): Decoder
      reads this
    {
      Decoder(ParserState(), responseBytes, isFinished)
    }

    constructor (maxEvent: nat, maxResponse: nat)
      requires maxEvent > 0 && maxResponse > 0
      ensures State() == FRESH && limits == Limits(maxEvent, maxResponse)
    {
      limits := Limits(maxEvent, maxResponse);
      responseBytes := 0;
      line, lineBytes, pendingCr := [], 0, false;
      data, eventName, eventBytes := [], MESSAGE, 0;
      sawComment, heartbeatCount, isFinished, firstLine := false, 0, false, true;
    }

    method DispatchEvent() returns (events: seq<Event>)
      modifies this
      ensures (ParserState(), events) == Dispatch(old(ParserState()))
      ensures responseBytes == old(responseBytes) && isFinished == old(isFinished)
    {
      events := [];
      if data != [] {
        events := [Event(eventName, Join(data))];
        if Lower(eventName) == PING || Lower(eventName) == HEARTBEAT {
          heartbeatCount := heartbeatCount + 1;
        }
      }
      data, eventName, eventBytes, sawComment := [], MESSAGE, 0, false;
    }

    /** Strict UTF-8; the first line that decodes loses its byte order mark. */
    method DecodeLine(raw: Bytes) returns (ok: bool, text: Bytes)
      modifies this`firstLine
      ensures ok == ValidUtf8(raw)
      ensures ok ==> !firstLine && text == if old(firstLine) then StripBom(raw) else raw
      ensures !ok ==> firstLine == old(firstLine)
    {
      ok, text := ValidUtf8(raw), raw;
      if ok && firstLine {
        firstLine := false;
        text := StripBom(raw);
      }
    }

    method EndLine() returns (r: Fed)
      modifies this
      ensures var step := LineReady(old(ParserState()), limits);
              ParserState() == step.state && r == Seen(step)
      ensures responseBytes == old(responseBytes) && isFinished == old(isFinished)
    {
      hide ValidUtf8, StripBom, Dispatch, StoreLine;
      var raw := line;
      line, lineBytes := [], 0;
      var ok, text := DecodeLine(raw);
      if !ok {
        return Error(InvalidUtf8);
      }
      if text == [] {
        var events := DispatchEvent();
        return Events(events);
      }
      r := KeepLine(|raw| + 1, text);
    }

    method KeepLine(charge: nat, text: Bytes) returns (r: Fed)
      requires text != []
      modifies this
      ensures var step := StoreLine(old(ParserState()), charge, text, limits);
              ParserState() == step.state && r == Seen(step)
      ensures responseBytes == old(responseBytes) && isFinished == old(isFinished)
    {
      eventBytes := eventBytes + charge;
      if eventBytes > limits.maxEvent {
        return Error(EventTooLarge);
      }
      if text[0] == COLON {
        heartbeatCount, sawComment := heartbeatCount + 1, true;
      } else {
        StoreField(text);
      }
      return Events([]);
    }

    method StoreField(text: Bytes)
      modifies this`data, this`eventName
      ensures ParserState() == ApplyField(old(ParserState()), text)
    {
      var field := text[..Find(text, COLON)];
      var value := FieldValue(text);
      if field == DATA_FIELD {
        data := data + [value];
      } else if field == EVENT_FIELD {
        eventName := if value == [] then MESSAGE else value;
      }
    }

    method Feed(chunk: Bytes) returns (r: Fed)
      modifies this
      ensures var step := FeedChunk(old(State()), chunk, limits);
              State() == step.state && r == Seen(step)
    {
      if isFinished {
        return Error(DataAfterEof);
      }
      responseBytes := responseBytes + |chunk|;
      if responseBytes > limits.maxResponse {
        return Error(ResponseTooLarge);
      }
      var events: seq<Event> := [];
      ghost var start := ParserState();
      assert chunk[0..] == chunk;
      for i := 0 to |chunk|
        invariant !isFinished && responseBytes == old(responseBytes) + |chunk|
        invariant FeedBytes(start, chunk, limits) == Prepend(events, FeedBytes(ParserState(), chunk[i..], limits))
      {
        assert chunk[i..][0] == chunk[i] && chunk[i..][1..] == chunk[i + 1..];
        ghost var done := events;
        var r := Accept(chunk[i]);
        if r.Error? {
          return r;
        }
        events := events + r.events;
        PrependTwice(done, r.events, FeedBytes(ParserState(), chunk[i + 1..], limits));
      }
      assert chunk[|chunk|..] == [];
      return Events(events);
    }

    /** The body of the byte loop. */
    method Accept(byte: Byte) returns (r: Fed)
      modifies this
      ensures var step := FeedByte(old(ParserState()), byte, limits);
              ParserState() == step.state && r == Seen(step)
      ensures responseBytes == old(responseBytes) && isFinished == old(isFinished)
    {
      hide LineReady;
      var events: seq<Event> := [];
      if pendingCr {
        pendingCr := false;
        r := EndLine();
        if r.Error? || byte == LF {
          return;  // the pending CR and this LF form one terminator
        }
        events := r.events;
      }
      if byte == CR {
        pendingCr := true;
        if lineBytes + eventBytes + 1 > limits.maxEvent {
          return Error(EventTooLarge);
        }
      } else if byte == LF {
        r := EndLine();
        return;
      } else {
        line := line + [byte];
        lineBytes := lineBytes + 1;
        if lineBytes + eventBytes > limits.maxEvent {
          return Error(EventTooLarge);
        }
      }
      return Events(events);
    }

    method Finish() returns (r: Fed)
      modifies this
      ensures var step := FinishDecoder(old(State()), limits);
              State() == step.state && r == Seen(step)
    {
      if isFinished {
        return Events([]);
      }
      isFinished := true;
      if pendingCr {
        pendingCr := false;
        r := EndLine();
      } else if line != [] {
        r := EndLine();
      } else {
        r := Events([]);
      }
    }

    /** Partial data behind a complete answer must not be discarded silently. */
    method ValidateTerminalTail() returns (fault: Option<Category>)
      modifies this`firstLine
      ensures fault == TailFault(old(ParserState()))
      ensures State() == old(State()).(parser := old(ParserState()).(firstLine := firstLine))
      ensures firstLine == (old(firstLine) && (data != [] || eventName != MESSAGE || line == [] || !ValidUtf8(line)))
    {
      if data != [] || eventName != MESSAGE {
        return Some(DataAfterTerminal);
      }
      if line != [] {
        var decoded, text := DecodeLine(line);
        if !decoded {
          return Some(InvalidUtf8);
        }
        if !Blank(text) && (text == [] || text[0] != COLON) {
          return Some(DataAfterTerminal);
        }
      }
      return None;
    }
  }
}
