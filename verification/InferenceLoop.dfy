/**
 The chunk-consuming loop of `okxquant_backend/llm_inference_transport.py` in stream mode.

 Chunks are read until the assembler is complete or the response ends. `present` stands for the UTF-8
 and JSON decoding of one event and is the same function throughout.
 */
module InferenceLoop {
  import opened Options
  import opened Text
  import opened SseDecoder
  import opened StreamMessages
  import opened StreamAssembler

  datatype Why = StreamTruncated | TooLarge | StreamIncomplete | StreamError | InvalidStream

  datatype Reading = Answered(answer: Answer) | Failed(why: Why)

  /** `_stream_category` on the decoder's errors. */
  function DecoderFailure(c: Category): Why
  {
    match c
    case EventTooLarge => TooLarge
    case ResponseTooLarge => TooLarge
    case _ => InvalidStream
  }

  /** `_stream_category` on the assembler's errors. */
  function AssemblerFailure(f: Fault): Why
  {
    match f
    case TruncatedStream => StreamTruncated
    case InvalidTerminal => StreamIncomplete
    case UnsupportedFinish => StreamIncomplete
    case IncompleteResponse => StreamIncomplete
    case ProviderError => StreamError
    case _ => InvalidStream
  }

  datatype Session = Session(decoder: Decoder, assembler: Assembler, received: nat)

  datatype Progress = Going(session: Session) | Broken(why: Why)

  datatype Delivery = Delivered(assembler: Assembler) | Declined(why: Why)

  /** Feed decoded events to the assembler until one is not accepted. */
  function Deliver(a: Assembler, events: seq<Event>, present: Event -> Message): (r: Delivery)
    requires Sound(a)
    ensures r.Delivered? ==> Sound(r.assembler)
    decreases |events|
  {
    if events == [] then Delivered(a)
    else
      var (next, outcome) := After(a, present(events[0]));
      match outcome
      case Accepted => Deliver(next, events[1..], present)
      case Rejected(f) => Declined(AssemblerFailure(f))
      case TypeError => Declined(InvalidStream)
  }

  /** One chunk: size, decoding, assembly, and, once complete, what is left over. */
  function Consume(s: Session, chunk: Bytes, lim: Limits, present: Event -> Message): (r: Progress)
    requires Sound(s.assembler)
    ensures r.Going? ==> Sound(r.session.assembler)
  {
    var received := s.received + |chunk|;
    if received > lim.maxResponse then Broken(TooLarge)
    else
      match FeedChunk(s.decoder, chunk, lim)
      case Stop(_, c) => Broken(DecoderFailure(c))
      case Next(d, events) =>
        match Deliver(s.assembler, events, present)
        case Declined(w) => Broken(w)
        case Delivered(a) =>
          if a.complete && !TailDiscardable(d.parser) then Broken(DecoderFailure(TailFault(d.parser).value))
          else Going(Session(d, a, received))
  }

  /** The loop from a session whose assembler is not complete. */
  function ReadAll(s: Session, chunks: seq<Bytes>, lim: Limits, present: Event -> Message): Reading
    requires Sound(s.assembler)
    decreases |chunks|
  {
    if chunks == [] then AtEnd(s, lim, present)
    else
      match Consume(s, chunks[0], lim, present)
      case Broken(w) => Failed(w)
      case Going(next) =>
        if next.assembler.complete then AnswerNow(next.assembler) else ReadAll(next, chunks[1..], lim, present)
  }

  function AtEnd(s: Session, lim: Limits, present: Event -> Message): Reading
    requires Sound(s.assembler)
  {
    match FinishDecoder(s.decoder, lim)
    case Stop(_, c) => Failed(DecoderFailure(c))
    case Next(_, events) =>
      match Deliver(s.assembler, events, present)
      case Declined(w) => Failed(w)
      case Delivered(a) => if !a.complete then Failed(StreamTruncated) else AnswerNow(a)
  }

  function AnswerNow(a: Assembler): Reading
  {
    match Readable(a)
    case None => Failed(InvalidStream)
    case Some(answer) => Answered(answer)
  }

  function Opening(protocol: Protocol): Session
  {
    Session(FRESH, Fresh(protocol), 0)
  }

  /** A whole request body, cut into chunks. */
  function Read(protocol: Protocol, chunks: seq<Bytes>, lim: Limits, present: Event -> Message): Reading
  {
    ReadAll(Opening(protocol), chunks, lim, present)
  }

  // ---------------------------------------------------------------------------------------------
  // The answer does not depend on the cutting
  // ---------------------------------------------------------------------------------------------

  function Messages(events: seq<Event>, present: Event -> Message): (r: seq<Message>)
    ensures |r| == |events|
    ensures forall i | 0 <= i < |r| :: r[i] == present(events[i])
  {
    seq(|events|, i requires 0 <= i < |events| => present(events[i]))
  }

  lemma {:induction false} DeliverIsAfterAll(a: Assembler, events: seq<Event>, present: Event -> Message)
    requires Sound(a)
    ensures Deliver(a, events, present).Delivered? <==> AfterAll(a, Messages(events, present)).Some?
    ensures Deliver(a, events, present).Delivered? ==>
              AfterAll(a, Messages(events, present)) == Some(Deliver(a, events, present).assembler)
    decreases |events|
  {
    hide After;
    if events != [] {
      assert Messages(events, present)[1..] == Messages(events[1..], present);
      var (next, outcome) := After(a, present(events[0]));
      if outcome.Accepted? { DeliverIsAfterAll(next, events[1..], present); }
    }
  }

  lemma MessagesConcat(a: seq<Event>, b: seq<Event>, present: Event -> Message)
    ensures Messages(a + b, present) == Messages(a, present) + Messages(b, present)
  {
  }

  /** The session a stream prefix `read` leads to when nothing has been refused. */
  ghost predicate Reached(protocol: Protocol, s: Session, read: Bytes, lim: Limits, present: Event -> Message)
  {
    && Sound(s.assembler) && !s.decoder.finished && s.decoder.responseBytes <= lim.maxResponse
    && FeedBytes(START, read, lim).Next?
    && FeedBytes(START, read, lim).state == s.decoder.parser
    && AfterAll(Fresh(protocol), Messages(FeedBytes(START, read, lim).events, present)) == Some(s.assembler)
  }

  /** An answer together with the events it was read from. */
  ghost predicate AnswerOfEvents(protocol: Protocol, events: seq<Event>, present: Event -> Message, answer: Answer)
  {
    && AfterAll(Fresh(protocol), Messages(events, present)).Some?
    && Readable(AfterAll(Fresh(protocol), Messages(events, present)).value) == Some(answer)
  }

  /** The events a reading saw: those of a prefix of the stream, or those of the whole stream and its end. */
  ghost predicate EventsOf(stream: Bytes, events: seq<Event>, lim: Limits)
  {
    || (exists read :: read <= stream && FeedBytes(START, read, lim).Next? && events == FeedBytes(START, read, lim).events)
    || (&& FeedBytes(START, stream, lim).Next? && FinishParser(FeedBytes(START, stream, lim).state, lim).Next?
        && events == FeedBytes(START, stream, lim).events + FinishParser(FeedBytes(START, stream, lim).state, lim).events)
  }

  lemma ConsumeReaches(protocol: Protocol, s: Session, read: Bytes, chunk: Bytes, lim: Limits,
                       present: Event -> Message)
    requires Reached(protocol, s, read, lim, present) && Consume(s, chunk, lim, present).Going?
    ensures Reached(protocol, Consume(s, chunk, lim, present).session, read + chunk, lim, present)
  {
    hide FeedBytes, After, TailDiscardable;
    FeedBytesConcat(START, read, chunk, lim);
    var before, more := FeedBytes(START, read, lim).events, FeedBytes(s.decoder.parser, chunk, lim);
    if more.Next? {
      DeliverIsAfterAll(s.assembler, more.events, present);
      MessagesConcat(before, more.events, present);
      AfterAllConcat(Fresh(protocol), Messages(before, present), Messages(more.events, present));
    }
  }

  /** Whatever the loop answers is the readable answer of the events it saw. */
  lemma {:induction false} AnsweredFrom(protocol: Protocol, s: Session, read: Bytes, chunks: seq<Bytes>, lim: Limits,
                                        present: Event -> Message) returns (events: seq<Event>)
    requires Reached(protocol, s, read, lim, present) && ReadAll(s, chunks, lim, present).Answered?
    ensures EventsOf(read + Flatten(chunks), events, lim)
    ensures AnswerOfEvents(protocol, events, present, ReadAll(s, chunks, lim, present).answer)
    decreases |chunks|
  {
    hide FeedBytes, After, TailDiscardable, Consume, FinishParser;
    if chunks == [] {
      assert read + [] == read;
      events := EndAnswers(protocol, s, read, lim, present);
    } else {
      ConsumeReaches(protocol, s, read, chunks[0], lim, present);
      var next := Consume(s, chunks[0], lim, present).session;
      var stream := read + Flatten(chunks);
      assert stream == read + chunks[0] + Flatten(chunks[1..]);
      if next.assembler.complete {
        events := FeedBytes(START, read + chunks[0], lim).events;
        assert read + chunks[0] <= stream;
      } else {
        events := AnsweredFrom(protocol, next, read + chunks[0], chunks[1..], lim, present);
      }
    }
  }

  lemma EndAnswers(protocol: Protocol, s: Session, read: Bytes, lim: Limits, present: Event -> Message)
      returns (events: seq<Event>)
    requires Reached(protocol, s, read, lim, present) && AtEnd(s, lim, present).Answered?
    ensures EventsOf(read, events, lim)
    ensures AnswerOfEvents(protocol, events, present, AtEnd(s, lim, present).answer)
  {
    hide FeedBytes, After, FinishParser;
    var before, end := FeedBytes(START, read, lim).events, FinishParser(s.decoder.parser, lim);
    events := before + end.events;
    DeliverIsAfterAll(s.assembler, end.events, present);
    MessagesConcat(before, end.events, present);
    AfterAllConcat(Fresh(protocol), Messages(before, present), Messages(end.events, present));
  }

  lemma EventsOrdered(stream: Bytes, a: seq<Event>, b: seq<Event>, lim: Limits)
    requires EventsOf(stream, a, lim) && EventsOf(stream, b, lim)
    ensures a <= b || b <= a
  {
    hide FeedBytes, FinishParser;
    forall x, y | x <= stream && y <= stream && |x| <= |y| && FeedBytes(START, y, lim).Next?
      ensures FeedBytes(START, x, lim).Next? ==> FeedBytes(START, x, lim).events <= FeedBytes(START, y, lim).events
    {
      assert x <= y;
      FeedPrefix(x, y, lim);
    }
    assert stream <= stream;
  }

  lemma PrefixMessages(a: seq<Event>, b: seq<Event>, present: Event -> Message)
    requires a <= b
    ensures Messages(a, present) <= Messages(b, present)
  {
  }

  lemma LongestAnswer(protocol: Protocol, a: seq<Event>, b: seq<Event>, present: Event -> Message, x: Answer, y: Answer)
    requires a <= b && AnswerOfEvents(protocol, a, present, x) && AnswerOfEvents(protocol, b, present, y)
    ensures x == y
  {
    PrefixMessages(a, b, present);
    ReadableRunIsMaximal(Fresh(protocol), Messages(a, present), Messages(b, present));
  }

  lemma StartReached(protocol: Protocol, lim: Limits, present: Event -> Message)
    ensures Reached(protocol, Opening(protocol), [], lim, present)
  {
  }

  /** The loop stops as soon as an answer is complete and so may accept one cutting of a stream and
      refuse another; but any two cuttings that it accepts give the same answer. */
  lemma AcceptedCuttingsAgree(protocol: Protocol, a: seq<Bytes>, b: seq<Bytes>, lim: Limits, present: Event -> Message)
    requires Flatten(a) == Flatten(b)
    requires Read(protocol, a, lim, present).Answered? && Read(protocol, b, lim, present).Answered?
    ensures Read(protocol, a, lim, present) == Read(protocol, b, lim, present)
  {
    hide ReadAll, EventsOf, AnswerOfEvents, Reached;
    StartReached(protocol, lim, present);
    assert [] + Flatten(a) == Flatten(a);
    var x := AnsweredFrom(protocol, Opening(protocol), [], a, lim, present);
    var y := AnsweredFrom(protocol, Opening(protocol), [], b, lim, present);
    EventsOrdered(Flatten(a), x, y, lim);
    var answerA, answerB := Read(protocol, a, lim, present).answer, Read(protocol, b, lim, present).answer;
    if x <= y {
      LongestAnswer(protocol, x, y, present, answerA, answerB);
    } else {
      LongestAnswer(protocol, y, x, present, answerB, answerA);
    }
  }

  /** Never a partial result: an answered reading is the whole answer of the events the loop saw. */
  lemma AnswerIsWhole(protocol: Protocol, chunks: seq<Bytes>, lim: Limits, present: Event -> Message)
      returns (events: seq<Event>)
    requires Read(protocol, chunks, lim, present).Answered?
    ensures EventsOf(Flatten(chunks), events, lim)
    ensures WholeAnswer(protocol, AllNamed(Messages(events, present)), Read(protocol, chunks, lim, present).answer)
  {
    hide ReadAll, EventsOf, Reached, WholeAnswer;
    StartReached(protocol, lim, present);
    assert [] + Flatten(chunks) == Flatten(chunks);
    events := AnsweredFrom(protocol, Opening(protocol), [], chunks, lim, present);
    ReadableAnswerIsWhole(protocol, Messages(events, present));
  }

  /** The loop has completed within `chunks`: what follows is never read and cannot change the answer. */
  ghost predicate StopsWithin(s: Session, chunks: seq<Bytes>, lim: Limits, present: Event -> Message)
    requires Sound(s.assembler)
    decreases |chunks|
  {
    && chunks != []
    && var r := Consume(s, chunks[0], lim, present);
       r.Broken? || r.session.assembler.complete || StopsWithin(r.session, chunks[1..], lim, present)
  }

  lemma {:induction false} LateChunksUnread(s: Session, chunks: seq<Bytes>, late: seq<Bytes>, lim: Limits,
                                            present: Event -> Message)
    requires Sound(s.assembler) && StopsWithin(s, chunks, lim, present)
    ensures ReadAll(s, chunks + late, lim, present) == ReadAll(s, chunks, lim, present)
    decreases |chunks|
  {
    hide Consume;
    assert (chunks + late)[1..] == chunks[1..] + late;
    var r := Consume(s, chunks[0], lim, present);
    if r.Going? && !r.session.assembler.complete {
      LateChunksUnread(r.session, chunks[1..], late, lim, present);
    }
  }

  /** The same late bytes inside the completing chunk are refused when they start a further field. */
  lemma LateBytesInChunkRefused(s: Session, chunk: Bytes, late: Byte, lim: Limits, present: Event -> Message)
    requires Sound(s.assembler) && 0x41 <= late <= 0x7A
    requires var r := Consume(s, chunk, lim, present);
             r.Going? && r.session.assembler.complete && r.session.decoder.parser.line == []
             && !r.session.decoder.parser.pendingCr
    ensures Consume(s, chunk + [late], lim, present).Broken?
  {
    hide FeedBytes, After, FeedByte;
    FeedBytesSnoc(s.decoder.parser, chunk, late, lim);
    var p := FeedBytes(s.decoder.parser, chunk, lim).state;
    LateByteKept(p, late, lim);
    var events := FeedBytes(s.decoder.parser, chunk, lim).events;
    assert events + [] == events;
  }

  lemma LateByteKept(p: Parser, late: Byte, lim: Limits)
    requires 0x41 <= late <= 0x7A && p.line == [] && !p.pendingCr
    ensures FeedByte(p, late, lim).Next? ==>
              FeedByte(p, late, lim).events == [] && !TailDiscardable(FeedByte(p, late, lim).state)
  {
    assert [] + [late] == [late];
    assert ScalarLength([late]) == 1 && !LeadingWhitespace([late]);
  }

  // ---------------------------------------------------------------------------------------------
  // The loop
  // ---------------------------------------------------------------------------------------------

  method DeliverEvents(assembler: StreamAssembler, events: seq<Event>, present: Event -> Message)
      returns (ok: bool, why: Why)
    requires assembler.Valid()
    modifies assembler
    ensures var d := Deliver(old(assembler.State()), events, present);
            && (ok <==> d.Delivered?)
            && (ok ==> assembler.Valid() && assembler.State() == d.assembler)
            && (!ok ==> why == d.why)
  {
    hide After;
    assert events[0..] == events;
    for i := 0 to |events|
      invariant assembler.Valid()
      invariant Deliver(old(assembler.State()), events, present) == Deliver(assembler.State(), events[i..], present)
    {
      assert events[i..][1..] == events[i + 1..];
      var o := assembler.Feed(present(events[i]));
      if o.Rejected? {
        return false, AssemblerFailure(o.fault);
      }
      if o.TypeError? {
        return false, InvalidStream;
      }
    }
    assert events[|events|..] == [];
    return true, InvalidStream;
  }

  method ConsumeChunk(decoder: SSEDecoder, assembler: StreamAssembler, chunk: Bytes, received: nat,
                      present: Event -> Message)
      returns (ok: bool, why: Why)
    requires assembler.Valid()
    modifies decoder, assembler
    ensures var r := Consume(Session(old(decoder.State()), old(assembler.State()), received), chunk, decoder.limits, present);
            && (ok <==> r.Going?)
            && (ok ==> assembler.Valid() && SameButFirstLine(r.session, decoder.State(), assembler.State(), received + |chunk|))
            && (!ok ==> why == r.why)
  {
    hide FeedBytes, Deliver, TailFault;
    if received + |chunk| > decoder.limits.maxResponse {
      return false, TooLarge;
    }
    var fed := decoder.Feed(chunk);
    if fed.Error? {
      return false, DecoderFailure(fed.category);
    }
    ok, why := DeliverEvents(assembler, fed.events, present);
    if ok && assembler.isComplete {
      var fault := decoder.ValidateTerminalTail();
      if fault.Some? {
        return false, DecoderFailure(fault.value);
      }
    }
  }

  /** Checking the tail may take note that a first line has been decoded; the loop ends there. */
  ghost predicate SameButFirstLine(s: Session, d: Decoder, a: Assembler, received: nat)
  {
    && s.assembler == a && s.received == received
    && (if a.complete then s.decoder == d.(parser := d.parser.(firstLine := s.decoder.parser.firstLine)) else s.decoder == d)
  }

  /** `request_inference_async` from the first chunk to the result. */
  method ReadStream(protocol: Protocol, chunks: seq<Bytes>, lim: Limits, present: Event -> Message) returns (r: Reading)
    requires lim.maxEvent > 0 && lim.maxResponse > 0
    ensures r == Read(protocol, chunks, lim, present)
  {
    hide Consume, FinishDecoder, Deliver;
    var decoder := new SSEDecoder(lim.maxEvent, lim.maxResponse);
    var assembler := new StreamAssembler(protocol);
    var received: nat, i: nat := 0, 0;
    assert chunks[0..] == chunks;
    while i < |chunks|
      invariant 0 <= i <= |chunks| && assembler.Valid() && decoder.limits == lim && !assembler.isComplete
      invariant Read(protocol, chunks, lim, present)
             == ReadAll(Session(decoder.State(), assembler.State(), received), chunks[i..], lim, present)
    {
      assert chunks[i..][0] == chunks[i] && chunks[i..][1..] == chunks[i + 1..];
      var ok, why := ConsumeChunk(decoder, assembler, chunks[i], received, present);
      if !ok {
        return Failed(why);
      }
      received, i := received + |chunks[i]|, i + 1;
      if assembler.isComplete {
        var answer, _ := assembler.Result();
        return match answer case None => Failed(InvalidStream) case Some(a) => Answered(a);
      }
    }
    assert chunks[i..] == [];
    var last := decoder.Finish();
    if last.Error? {
      return Failed(DecoderFailure(last.category));
    }
    var ok, why := DeliverEvents(assembler, last.events, present);
    if !ok {
      return Failed(why);
    }
    if !assembler.isComplete {
      return Failed(StreamTruncated);
    }
    var answer, _ := assembler.Result();
    return match answer case None => Failed(InvalidStream) case Some(a) => Answered(a);
  }
}
