/**
 From the bytes of a printed event list to the answer of the read loop.

 Whatever the cutting, a printed list that is a whole answer of its protocol is answered; and a printed
 list has a cutting that is answered exactly if some beginning of it is a whole answer.
 */
module WireAnswers {
  import opened Options
  import opened Text
  import opened SseDecoder
  import opened SseReference
  import Standard = SseReference
  import opened SsePrinting
  import opened StreamMessages
  import opened StreamAssembler
  import opened StreamAnswers
  import opened InferenceLoop
  import opened StreamCuttings

  // ---------------------------------------------------------------------------------------------
  // A printed list leaves the decoder clean
  // ---------------------------------------------------------------------------------------------

  lemma {:induction false} PrintLinesConcat(a: seq<Bytes>, b: seq<Bytes>, style: Style)
    ensures PrintLines(a + b, style) == PrintLines(a, style) + PrintLines(b, style)
    decreases |a|
  {
    if a == [] {
      assert a + b == b;
    } else {
      assert (a + b)[1..] == a[1..] + b;
      PrintLinesConcat(a[1..], b, style);
    }
  }

  lemma {:induction false} EventLinesConcat(a: seq<Event>, b: seq<Event>, spaced: bool)
    ensures EventLines(a + b, spaced) == EventLines(a, spaced) + EventLines(b, spaced)
    decreases |a|
  {
    hide FieldLines;
    if a == [] {
      assert a + b == b;
    } else {
      assert (a + b)[1..] == a[1..] + b;
      EventLinesConcat(a[1..], b, spaced);
    }
  }

  lemma PrintConcat(a: seq<Event>, b: seq<Event>, spaced: bool)
    ensures Print(a + b, LfStyle, spaced) == Print(a, LfStyle, spaced) + Print(b, LfStyle, spaced)
  {
    EventLinesConcat(a, b, spaced);
    PrintLinesConcat(EventLines(a, spaced), EventLines(b, spaced), LfStyle);
  }

  /** The lines of a list but for the blank one at its end. */
  function LinesButLast(events: seq<Event>, spaced: bool): seq<Bytes>
    requires events != []
  {
    EventLines(events[..|events| - 1], spaced) + FieldLines(events[|events| - 1], spaced)
  }

  lemma LinesEndBlank(events: seq<Event>, spaced: bool)
    requires events != []
    ensures EventLines(events, spaced) == LinesButLast(events, spaced) + [[]]
  {
    hide FieldLines;
    var n := |events| - 1;
    assert events == events[..n] + [events[n]] && [events[n]][1..] == [];
    EventLinesConcat(events[..n], [events[n]], spaced);
    assert EventLines([events[n]], spaced) == FieldLines(events[n], spaced) + [[]] + EventLines([], spaced);
  }

  lemma LastLine(lines: seq<Bytes>) returns (front: Bytes)
    requires lines != []
    ensures PrintLines(lines, LfStyle) == front + [LF]
  {
    var n := |lines| - 1;
    var last := [lines[n]];
    assert lines == lines[..n] + last && last[1..] == [];
    PrintLinesConcat(lines[..n], last, LfStyle);
    front := PrintLines(lines[..n], LfStyle) + lines[n];
  }

  lemma PrintEndsBlank(events: seq<Event>, spaced: bool) returns (front: Bytes)
    requires events != []
    ensures front + [LF] == PrintLines(LinesButLast(events, spaced), LfStyle)
    ensures Print(events, LfStyle, spaced) == front + [LF] + [LF]
  {
    var lines := LinesButLast(events, spaced);
    hide LinesButLast, EventLines, PrintLines;
    LinesEndBlank(events, spaced);
    BlankLine();
    PrintLinesConcat(lines, [[]], LfStyle);
    front := LastLine(lines);
  }

  lemma BlankLine()
    ensures PrintLines([[]], LfStyle) == [LF]
  {
    var blank: seq<Bytes> := [[]];
    assert blank[1..] == [];
  }

  lemma LfEndsLine(p: Parser, lim: Limits)
    requires Bounded(p, lim) && FeedByte(p, LF, lim).Next?
    ensures var q := FeedByte(p, LF, lim).state;
            q.line == [] && !q.pendingCr
  {
    LineReadyBounded(p.(pendingCr := false), lim);
  }

  predicate AtRest(p: Parser)
  {
    p.line == [] && !p.pendingCr && p.data == [] && p.eventName == MESSAGE
  }

  lemma BlankLineClears(front: Bytes, lim: Limits)
    requires FeedBytes(START, front + [LF] + [LF], lim).Next?
    ensures AtRest(FeedBytes(START, front + [LF] + [LF], lim).state)
  {
    hide FeedByte, FeedBytes;
    FeedBytesSnoc(START, front + [LF], LF, lim);
    FeedBytesSnoc(START, front, LF, lim);
    FeedBytesBounded(START, front, lim);
    var p := FeedBytes(START, front, lim).state;
    LfEndsLine(p, lim);
    BlankLineFed(FeedByte(p, LF, lim).state, lim);
  }

  lemma BlankLineFed(p: Parser, lim: Limits)
    requires p.line == [] && !p.pendingCr
    ensures FeedByte(p, LF, lim).Next? && AtRest(FeedByte(p, LF, lim).state)
  {
    assert StripBom([]) == [];
  }

  predicate WithinLimits(events: seq<Event>, spaced: bool, lim: Limits)
  {
    && (forall e <- events :: Printable(e) && EventCost(e, LfStyle, spaced) <= lim.maxEvent)
    && |Print(events, LfStyle, spaced)| <= lim.maxResponse
  }

  /** Without waiting for the end of input, a printed list yields its events and leaves nothing over. */
  lemma PrintedFeeds(events: seq<Event>, spaced: bool, lim: Limits)
    requires WithinLimits(events, spaced, lim)
    ensures var fed := FeedBytes(START, Print(events, LfStyle, spaced), lim);
            fed.Next? && fed.events == events && AtRest(fed.state)
  {
    if events == [] {
      NothingFeeds(spaced, lim);
    } else {
      SomethingFeeds(events, spaced, lim);
    }
  }

  lemma NothingFeeds(spaced: bool, lim: Limits)
    ensures Print([], LfStyle, spaced) == [] && FeedBytes(START, [], lim) == Next(START, []) && AtRest(START)
  {
  }

  lemma SomethingFeeds(events: seq<Event>, spaced: bool, lim: Limits)
    requires events != [] && WithinLimits(events, spaced, lim)
    ensures var fed := FeedBytes(START, Print(events, LfStyle, spaced), lim);
            fed.Next? && fed.events == events && AtRest(fed.state)
  {
    hide FeedBytes, Print, EventCost, LineReady;
    var stream := Print(events, LfStyle, spaced);
    var chunks := [stream];
    assert chunks[1..] == [];
    assert Flatten(chunks) == stream + [] == stream;
    RoundTripExactlyWithinLimits(events, LfStyle, spaced, chunks, lim);
    ChunksAreOneChunk(FRESH, chunks, lim);
    var front := PrintEndsBlank(events, spaced);
    BlankLineClears(front, lim);
    var fed := FeedBytes(START, stream, lim);
    assert fed.events + [] == fed.events;
  }

  // ---------------------------------------------------------------------------------------------
  // The last byte brings the last event
  // ---------------------------------------------------------------------------------------------

  lemma {:induction false} NothingDispatched(b: Buffers, lines: seq<Bytes>)
    requires forall i | 0 <= i < |lines| :: lines[i] != []
    ensures Interpret(b, lines) == []
    decreases |lines|
  {
    hide ProcessLine;
    if lines != [] { NothingDispatched(ProcessLine(b, lines[0]), lines[1..]); }
  }

  lemma {:induction false} ButLastInterprets(events: seq<Event>, tail: seq<Bytes>, spaced: bool)
    requires forall e <- events :: Printable(e)
    ensures Interpret(EMPTY, EventLines(events, spaced) + tail) == events + Interpret(EMPTY, tail)
    decreases |events|
  {
    hide FieldLines, Printable, Interpret;
    if events == [] {
      assert EventLines(events, spaced) + tail == tail && events + Interpret(EMPTY, tail) == Interpret(EMPTY, tail);
    } else {
      var rest := EventLines(events[1..], spaced) + tail;
      assert EventLines(events, spaced) + tail == FieldLines(events[0], spaced) + [[]] + rest;
      InterpretEvent(events[0], rest, spaced);
      ButLastInterprets(events[1..], tail, spaced);
      assert events == [events[0]] + events[1..];
    }
  }

  /** Without its blank line at the end a printed list reads as one event less. */
  lemma ReadsOneLess(events: seq<Event>, spaced: bool)
    requires events != [] && forall e <- events :: Printable(e)
    ensures Standard.Reading(PrintLines(LinesButLast(events, spaced), LfStyle)) == events[..|events| - 1]
  {
    var n := |events| - 1;
    var fields, lines := FieldLines(events[n], spaced), LinesButLast(events, spaced);
    FieldLinesAreFieldLines(events[n], spaced);
    assert forall i | 0 <= i < |fields| :: FieldLine(fields[i]);
    hide FieldLines, EventLines, PrintLines, Interpret, Printable, Lines, ProcessLine;
    ButLastInterprets(events[..n], fields, spaced);
    NothingDispatched(EMPTY, fields);
    assert events[..n] + [] == events[..n];
    InterpretEvents(events[..n], spaced);
    assert OneLines(lines);
    LinesOfPrinted(lines, LfStyle);
    LinesHaveNoMark(events, spaced);
  }

  lemma LinesHaveNoMark(events: seq<Event>, spaced: bool)
    requires events != []
    ensures var text := PrintLines(LinesButLast(events, spaced), LfStyle); WithoutMark(text) == text
  {
    NoMark(events, LfStyle, spaced);
    var front := PrintEndsBlank(events, spaced);
    hide Print, PrintLines;
  }

  /** One chunk that ends at the end of a line, and the end of input behind it. */
  lemma SessionOfOne(stream: Bytes, lim: Limits)
    requires |stream| <= lim.maxResponse && FeedBytes(START, stream, lim).Next?
    requires FeedBytes(START, stream, lim).state.line == [] && !FeedBytes(START, stream, lim).state.pendingCr
    ensures FeedBytes(START, stream, lim).events == Standard.Reading(stream)
  {
    hide FeedBytes, Standard.Reading, LineReady;
    var chunks := [stream];
    assert chunks[1..] == [];
    assert Flatten(chunks) == stream + [] == stream;
    ChunksAreOneChunk(FRESH, chunks, lim);
    var events := FeedBytes(START, stream, lim).events;
    assert events + [] == events && [] + events == events;
    DecoderFollowsStandard(chunks, lim);
  }

  /** In front of its last byte a printed list has yielded all its events but the last. */
  lemma LastByteBringsLast(events: seq<Event>, spaced: bool, lim: Limits, n: nat)
    requires events != [] && WithinLimits(events, spaced, lim) && n < |Print(events, LfStyle, spaced)|
    ensures var fed := FeedBytes(START, Print(events, LfStyle, spaced)[..n], lim);
            fed.Next? && |fed.events| < |events|
  {
    hide FeedBytes, FeedByte, Print, PrintLines, LinesButLast, Standard.Reading, WithinLimits;
    var stream := Print(events, LfStyle, spaced);
    PrintedFeeds(events, spaced, lim);
    var front := PrintEndsBlank(events, spaced);
    var body := front + [LF];
    assert body <= stream;
    FeedPrefix(body, stream, lim);
    FeedPrefix(front, body, lim);
    FeedBytesBounded(START, front, lim);
    FeedBytesSnoc(START, front, LF, lim);
    LfEndsLine(FeedBytes(START, front, lim).state, lim);
    assert WithinLimits(events, spaced, lim) ==> |body| <= lim.maxResponse && forall e <- events :: Printable(e) by {
      FitsWithoutLast(events, spaced, lim, body);
    }
    SessionOfOne(body, lim);
    ReadsOneLess(events, spaced);
    assert stream[..n] <= body;
    FeedPrefix(stream[..n], body, lim);
  }

  lemma FitsWithoutLast(events: seq<Event>, spaced: bool, lim: Limits, body: Bytes)
    requires WithinLimits(events, spaced, lim) && body <= Print(events, LfStyle, spaced)
    ensures |body| <= lim.maxResponse && forall e <- events :: Printable(e)
  {
    hide Print, EventCost, Printable;
  }

  // ---------------------------------------------------------------------------------------------
  // Which printed lists are answered
  // ---------------------------------------------------------------------------------------------

  /** The events are a whole answer of the protocol, as the reading presents them. */
  ghost predicate IsAnswerOf(r: Request, events: seq<Event>)
  {
    IsAnswer(r.protocol, AllNamed(Messages(events, r.present)))
  }

  /** Bytes complete an answer exactly when they are within the limits and their events are one. */
  lemma CompletesExactly(r: Request, read: Bytes)
    ensures Completes(r, read) <==>
              && |read| <= r.lim.maxResponse && FeedBytes(START, read, r.lim).Next?
              && IsAnswerOf(r, FeedBytes(START, read, r.lim).events)
  {
    hide FeedBytes, After, AfterAll, AllNamed, IsAnswer;
    if FeedBytes(START, read, r.lim).Next? {
      AnsweredExactly(r.protocol, Messages(FeedBytes(START, read, r.lim).events, r.present));
    }
  }

  lemma PrintedCompletes(r: Request, events: seq<Event>, spaced: bool)
    requires WithinLimits(events, spaced, r.lim)
    ensures Completes(r, Print(events, LfStyle, spaced)) <==> IsAnswerOf(r, events)
  {
    var stream := Print(events, LfStyle, spaced);
    FitsWithoutLast(events, spaced, r.lim, stream);
    hide FeedBytes, Completes, IsAnswerOf, Print, WithinLimits;
    PrintedFeeds(events, spaced, r.lim);
    CompletesExactly(r, stream);
  }

  lemma NotEarlier(r: Request, events: seq<Event>, spaced: bool, q: nat)
    requires events != [] && WithinLimits(events, spaced, r.lim) && q < |Print(events, LfStyle, spaced)|
    requires Completes(r, Print(events, LfStyle, spaced))
    ensures !Completes(r, Print(events, LfStyle, spaced)[..q])
  {
    var stream := Print(events, LfStyle, spaced);
    assert SessionAfter(r, stream).Some?;
    hide FeedBytes, Completes, Print, WithinLimits, SessionAfter;
    PrintedFeeds(events, spaced, r.lim);
    LastByteBringsLast(events, spaced, r.lim, q);
    assert stream[..q] <= stream;
    if Completes(r, stream[..q]) { CompletedLeads(r, stream[..q], stream); }
  }

  lemma CleanWhereItRests(r: Request, stream: Bytes)
    requires Completes(r, stream) && AtRest(FeedBytes(START, stream, r.lim).state)
    ensures CleanBehind(r, stream, |stream|)
  {
    hide FeedBytes, Completes, TailDiscardable, AtRest, EventsIn, IsAnswerOf;
    CompletesExactly(r, stream);
    AtRestIsDiscardable(FeedBytes(START, stream, r.lim).state);
    assert stream[..|stream|] == stream;
  }

  /** A printed answer is complete with its last byte and not before, and leaves nothing over. */
  lemma CompletedByLastByte(r: Request, events: seq<Event>, spaced: bool)
    requires WithinLimits(events, spaced, r.lim) && IsAnswerOf(r, events) && events != []
    ensures var stream := Print(events, LfStyle, spaced);
            CompletedBy(r, stream, |stream|) && CleanBehind(r, stream, |stream|)
  {
    var stream := Print(events, LfStyle, spaced);
    hide FeedBytes, Completes, IsAnswerOf, Print, WithinLimits, AtRest, CleanBehind;
    PrintedCompletes(r, events, spaced);
    PrintedFeeds(events, spaced, r.lim);
    assert stream[..|stream|] == stream;
    CleanWhereItRests(r, stream);
    forall q | 0 <= q < |stream| ensures !Completes(r, stream[..q]) { NotEarlier(r, events, spaced, q); }
  }

  lemma AtRestIsDiscardable(p: Parser)
    requires AtRest(p)
    ensures TailDiscardable(p)
  {
  }

  lemma NothingIsNoAnswer(r: Request)
    ensures !IsAnswerOf(r, [])
  {
    NothingRead(r);
    CompletesExactly(r, []);
    hide IsAnswerOf;
  }

  /**
   Every printed list that is a whole answer of its protocol and fits the limits is answered with the
   whole of it, into whatever chunks its bytes are cut.
   */
  lemma AnswerIsRead(r: Request, events: seq<Event>, spaced: bool, chunks: seq<Bytes>)
    requires WithinLimits(events, spaced, r.lim) && IsAnswerOf(r, events)
    requires Flatten(chunks) == Print(events, LfStyle, spaced)
    ensures Answering(r, chunks).Answered?
    ensures WholeAnswer(r.protocol, AllNamed(Messages(events, r.present)), Answering(r, chunks).answer)
  {
    var stream := Print(events, LfStyle, spaced);
    NothingIsNoAnswer(r);
    PrintedFeeds(events, spaced, r.lim);
    CompletedByLastByte(r, events, spaced);
    assert CleanAt(r, stream, |stream|, |stream|);
    assert stream[..|stream|] == stream;
    hide WithinLimits, IsAnswerOf, Print, Answering, StopAt, CompletedBy, CleanAt, CleanBehind, WholeAnswer, AllNamed;
    AnsweredExactlyWhenClean(r, chunks, |stream|);
    AnswerOfSession(r, stream, events);
  }

  lemma AnswerOfSession(r: Request, read: Bytes, events: seq<Event>)
    requires FeedBytes(START, read, r.lim).Next? && FeedBytes(START, read, r.lim).events == events
    requires SessionAfter(r, read).Some? && Readable(SessionAfter(r, read).value.assembler).Some?
    ensures WholeAnswer(r.protocol, AllNamed(Messages(events, r.present)),
                        Readable(SessionAfter(r, read).value.assembler).value)
  {
    hide FeedBytes, AfterAll, WholeAnswer, AllNamed;
    ReadableAnswerIsWhole(r.protocol, Messages(events, r.present));
  }

  lemma BeginningFits(events: seq<Event>, spaced: bool, lim: Limits, n: nat)
    requires WithinLimits(events, spaced, lim) && n <= |events|
    ensures WithinLimits(events[..n], spaced, lim)
    ensures Print(events[..n], LfStyle, spaced) <= Print(events, LfStyle, spaced)
  {
    assert events == events[..n] + events[n..];
    PrintConcat(events[..n], events[n..], spaced);
    hide Print, EventCost, Printable;
  }

  lemma CompletedWithin(r: Request, a: Bytes, stream: Bytes)
    requires a <= stream && CompletedBy(r, a, |a|) && CleanBehind(r, a, |a|)
    ensures SomeCuttingAnswers(r, stream)
  {
    assert CleanAt(r, a, |a|, |a|);
    assert a[..|a|] == a == stream[..|a|];
    assert forall q | 0 <= q < |a| :: stream[..q] == a[..q];
    hide Completes, TailDiscardable, FeedBytes, EventsIn, SomeCuttingAnswers;
    CutAnswered(r, stream, |a|, |a|);
  }

  /** A list that begins with an answer is answered when it is cut behind it. */
  lemma BeginningAnswered(r: Request, events: seq<Event>, spaced: bool, n: nat)
    requires WithinLimits(events, spaced, r.lim) && n <= |events| && IsAnswerOf(r, events[..n])
    ensures SomeCuttingAnswers(r, Print(events, LfStyle, spaced))
  {
    hide WithinLimits, IsAnswerOf, Print, SomeCuttingAnswers, CompletedBy, CleanBehind;
    BeginningFits(events, spaced, r.lim, n);
    NothingIsNoAnswer(r);
    CompletedByLastByte(r, events[..n], spaced);
    CompletedWithin(r, Print(events[..n], LfStyle, spaced), Print(events, LfStyle, spaced));
  }

  lemma RestingEndAddsNothing(r: Request, read: Bytes)
    requires AnsweredAtEnd(r, read) && AtRest(FeedBytes(START, read, r.lim).state)
    ensures Completes(r, read)
  {
    hide FeedBytes, AfterAll, LineReady;
  }

  /** Whatever is answered of a printed list is a beginning of it. */
  lemma AnsweredBeginning(r: Request, events: seq<Event>, spaced: bool) returns (n: nat)
    requires WithinLimits(events, spaced, r.lim)
    requires SomeCuttingAnswers(r, Print(events, LfStyle, spaced))
    ensures n <= |events| && IsAnswerOf(r, events[..n])
  {
    var stream := Print(events, LfStyle, spaced);
    hide WithinLimits, IsAnswerOf, Print, SomeCuttingAnswers, Completes, AnsweredAtEnd, FeedBytes;
    PrintedFeeds(events, spaced, r.lim);
    assert stream[..|stream|] == stream;
    if NeverCompletes(r, stream) {
      CuttingsOfUncompleted(r, stream);
      RestingEndAddsNothing(r, stream);
      assert false;
    }
    var q: nat :| q <= |stream| && Completes(r, stream[..q]);
    CompletesExactly(r, stream[..q]);
    assert stream[..q] <= stream;
    FeedPrefix(stream[..q], stream, r.lim);
    n := |FeedBytes(START, stream[..q], r.lim).events|;
    assert events[..n] == FeedBytes(START, stream[..q], r.lim).events;
  }

  /** A printed list within the limits has a cutting that is answered exactly if some beginning of it is a
      whole answer of the protocol. */
  lemma SomeCuttingAnsweredExactly(r: Request, events: seq<Event>, spaced: bool)
    requires WithinLimits(events, spaced, r.lim)
    ensures SomeCuttingAnswers(r, Print(events, LfStyle, spaced))
       <==> exists n: nat :: n <= |events| && IsAnswerOf(r, events[..n])
  {
    hide WithinLimits, IsAnswerOf, Print, SomeCuttingAnswers;
    if SomeCuttingAnswers(r, Print(events, LfStyle, spaced)) {
      var n := AnsweredBeginning(r, events, spaced);
    }
    if n: nat :| n <= |events| && IsAnswerOf(r, events[..n]) {
      BeginningAnswered(r, events, spaced, n);
    }
  }

  // ---------------------------------------------------------------------------------------------
  // Truncated answers
  // ---------------------------------------------------------------------------------------------

  /** A proper beginning of an answer is accepted and is none. */
  lemma BeginningGoes(r: Request, events: seq<Event>, n: nat)
    requires IsAnswerOf(r, events) && n < |events|
    ensures var a := AfterAll(Fresh(r.protocol), Messages(events[..n], r.present)); a.Some? && !a.value.complete
  {
    var all := Messages(events, r.present);
    AnsweredExactly(r.protocol, all);
    assert AfterAll(Fresh(r.protocol), all).Some?;
    hide IsAnswerOf, AfterAll, After;
    assert events == events[..n] + events[n..];
    MessagesConcat(events[..n], events[n..], r.present);
    AfterAllConcat(Fresh(r.protocol), Messages(events[..n], r.present), Messages(events[n..], r.present));
    var a := AfterAll(Fresh(r.protocol), Messages(events[..n], r.present));
    if a.value.complete {
      PrefixMessages(events[..n], events, r.present);
      ReadableRunIsMaximal(Fresh(r.protocol), Messages(events[..n], r.present), all);
    }
  }

  lemma RestingEndIsTruncated(r: Request, s: Session)
    requires Sound(s.assembler) && !s.assembler.complete && !s.decoder.finished && AtRest(s.decoder.parser)
    ensures AtEnd(s, r.lim, r.present) == Failed(StreamTruncated)
  {
    hide LineReady, After;
  }

  lemma BeginningLeads(r: Request, events: seq<Event>, spaced: bool)
    requires WithinLimits(events, spaced, r.lim)
    requires AfterAll(Fresh(r.protocol), Messages(events, r.present)).Some?
    ensures var s := SessionAfter(r, Print(events, LfStyle, spaced));
            && s.Some? && s.value.assembler == AfterAll(Fresh(r.protocol), Messages(events, r.present)).value
            && !s.value.decoder.finished && AtRest(s.value.decoder.parser)
  {
    var stream := Print(events, LfStyle, spaced);
    FitsWithoutLast(events, spaced, r.lim, stream);
    hide FeedBytes, AfterAll, Print, WithinLimits, AtRest;
    PrintedFeeds(events, spaced, r.lim);
  }

  /** Whatever leads somewhere without completing anything completed nothing earlier. */
  lemma NothingCompletedBefore(r: Request, stream: Bytes)
    requires SessionAfter(r, stream).Some? && !SessionAfter(r, stream).value.assembler.complete
    ensures NeverCompletes(r, stream)
  {
    hide SessionAfter;
    forall q | 0 <= q <= |stream| ensures !Completes(r, stream[..q]) {
      if Completes(r, stream[..q]) { CompletedLeads(r, stream[..q], stream); }
    }
  }

  /** Every proper beginning of a printed answer is refused as truncated, into whatever chunks it is cut. */
  lemma BeginningIsTruncated(r: Request, events: seq<Event>, spaced: bool, n: nat, chunks: seq<Bytes>)
    requires WithinLimits(events, spaced, r.lim) && IsAnswerOf(r, events) && n < |events|
    requires Flatten(chunks) == Print(events[..n], LfStyle, spaced)
    ensures Answering(r, chunks) == Failed(StreamTruncated)
  {
    var stream := Print(events[..n], LfStyle, spaced);
    hide WithinLimits, IsAnswerOf, Print, AfterAll, SessionAfter, NeverCompletes, Answering, AtEnd, AtRest;
    BeginningFits(events, spaced, r.lim, n);
    BeginningGoes(r, events, n);
    BeginningLeads(r, events[..n], spaced);
    NothingCompletedBefore(r, stream);
    NeverCompletedAnswers(r, chunks);
    RestingEndIsTruncated(r, SessionAfter(r, stream).value);
  }
}
