/**
 Decoding undoes printing.

 An event list is written as `event:` and `data:` lines in one terminator style, with a space behind
 the colon or, where the value does not begin with one, without. The decoder gives the list back
 exactly when each event stays within the event limit and the stream within the response limit; the
 CR and CRLF styles are charged one byte more per event than the LF style.
 */
module SsePrinting {
  import opened Text
  import opened SseDecoder
  import opened SseReference

  datatype Style = LfStyle | CrStyle | CrLfStyle

  function Terminator(style: Style): Bytes
  {
    match style
    case LfStyle => [LF]
    case CrStyle => [CR]
    case CrLfStyle => [CR, LF]
  }

  function PrintLines(lines: seq<Bytes>, style: Style): Bytes
    decreases |lines|
  {
    if lines == [] then [] else lines[0] + Terminator(style) + PrintLines(lines[1..], style)
  }

  /** The pieces of `data` between its line feeds. */
  function Pieces(data: Bytes): (r: seq<Bytes>)
    ensures r != []
    decreases |data|
  {
    var k := Find(data, LF);
    if k == |data| then [data] else [data[..k]] + Pieces(data[k + 1..])
  }

  /** What stands between a field and its value; a value that begins with a space needs one in front. */
  function Separator(value: Bytes, spaced: bool): Bytes
  {
    if spaced || (value != [] && value[0] == SPACE) then [COLON, SPACE] else [COLON]
  }

  function DataLines(pieces: seq<Bytes>, spaced: bool): (r: seq<Bytes>)
    ensures |r| == |pieces|
    decreases |pieces|
  {
    if pieces == [] then []
    else [DATA_FIELD + Separator(pieces[0], spaced) + pieces[0]] + DataLines(pieces[1..], spaced)
  }

  function FieldLines(e: Event, spaced: bool): seq<Bytes>
  {
    [EVENT_FIELD + Separator(e.name, spaced) + e.name] + DataLines(Pieces(e.data), spaced)
  }

  function EventLines(events: seq<Event>, spaced: bool): seq<Bytes>
    decreases |events|
  {
    if events == [] then [] else FieldLines(events[0], spaced) + [[]] + EventLines(events[1..], spaced)
  }

  function Print(events: seq<Event>, style: Style, spaced: bool): Bytes
  {
    PrintLines(EventLines(events, spaced), style)
  }

  predicate Printable(e: Event)
  {
    && e.name != [] && OneLine(e.name) && ValidUtf8(e.name)
    && CR !in e.data && ValidUtf8(e.data)
  }

  function Cost(lines: seq<Bytes>): nat
    decreases |lines|
  {
    if lines == [] then 0 else |lines[0]| + 1 + Cost(lines[1..])
  }

  /** What an event is charged against `max_event_bytes`. */
  function EventCost(e: Event, style: Style, spaced: bool): nat
  {
    Cost(FieldLines(e, spaced)) + if style == LfStyle then 0 else 1
  }

  // ---------------------------------------------------------------------------------------------
  // The printed stream reads back as the event list
  // ---------------------------------------------------------------------------------------------

  predicate FieldLine(line: Bytes) { line != [] && line[0] < 0x80 && OneLine(line) && ValidUtf8(line) }

  lemma {:induction false} PiecesJoin(data: Bytes)
    requires CR !in data && ValidUtf8(data)
    ensures Join(Pieces(data)) == data
    ensures TextPieces(Pieces(data))
    decreases |data|
  {
    var k := Find(data, LF);
    if k < |data| {
      assert data == data[..k] + [LF] + data[k + 1..];
      ValidSplitAtAscii(data[..k], LF, data[k + 1..]);
      PiecesJoin(data[k + 1..]);
      assert Pieces(data)[1..] == Pieces(data[k + 1..]);
    }
  }

  lemma PrefixedLine(field: Bytes, value: Bytes, spaced: bool)
    requires field == DATA_FIELD || field == EVENT_FIELD
    requires OneLine(value) && ValidUtf8(value)
    ensures var line := field + Separator(value, spaced) + value;
            FieldLine(line) && BeforeColon(line) == field && WithoutSpace(AfterColon(line)) == value
  {
    hide ValidUtf8;
    PrefixValid(field, value, spaced);
    PrefixSplit(field, value, spaced);
  }

  lemma PrefixSplit(field: Bytes, value: Bytes, spaced: bool)
    requires COLON !in field
    ensures var line := field + Separator(value, spaced) + value;
            BeforeColon(line) == field && WithoutSpace(AfterColon(line)) == value
  {
    hide BeforeColon, AfterColon;
    var line := field + Separator(value, spaced) + value;
    var rest := Separator(value, spaced)[1..] + value;
    assert line == field + [COLON] + rest;
    SplitAtColon(field, rest);
    if Separator(value, spaced) == [COLON] {
      assert rest == value;
    } else {
      assert rest == [SPACE] + value;
    }
  }

  lemma PrefixValid(field: Bytes, value: Bytes, spaced: bool)
    requires field == DATA_FIELD || field == EVENT_FIELD
    requires ValidUtf8(value)
    ensures ValidUtf8(field + Separator(value, spaced) + value)
  {
    var head := field + Separator(value, spaced);
    AsciiValid(head);
    ValidConcat(head, value);
  }

  lemma {:induction false} AsciiValid(s: Bytes)
    requires forall i | 0 <= i < |s| :: s[i] < 0x80
    ensures ValidUtf8(s)
    decreases |s|
  {
    if s != [] {
      AsciiValid(s[1..]);
      assert ScalarLength(s) == 1;
    }
  }

  predicate OneLines(lines: seq<Bytes>) { forall i | 0 <= i < |lines| :: OneLine(lines[i]) }

  predicate FieldLineList(lines: seq<Bytes>) { forall i | 0 <= i < |lines| :: FieldLine(lines[i]) }

  predicate TextPieces(pieces: seq<Bytes>)
  {
    forall i | 0 <= i < |pieces| :: OneLine(pieces[i]) && ValidUtf8(pieces[i])
  }

  lemma PrintedStart(lines: seq<Bytes>, style: Style)
    requires OneLines(lines) && style == CrStyle
    ensures PrintLines(lines, style) == [] || PrintLines(lines, style)[0] != LF
  {
    if lines != [] {
      var l, s := lines[0], PrintLines(lines, style);
      assert s == l + ([CR] + PrintLines(lines[1..], style));
      if l != [] { assert s[0] == l[0] && l[0] in l; }
    }
  }

  lemma LinesAt(l: Bytes, rest: Bytes, style: Style)
    requires OneLine(l) && (style == CrStyle ==> rest == [] || rest[0] != LF)
    ensures Lines(l + Terminator(style) + rest) == [l] + Lines(rest)
  {
    hide Lines;
    match style
    case LfStyle => LinesAtLf(l, rest);
    case CrLfStyle => LinesAtCrLf(l, rest);
    case CrStyle => LinesAtCr(l, rest);
  }

  lemma {:induction false} LinesOfPrinted(lines: seq<Bytes>, style: Style)
    requires OneLines(lines)
    ensures Lines(PrintLines(lines, style)) == lines
    decreases |lines|
  {
    if lines == [] {
      LinesUnterminated([]);
    } else {
      hide Lines;
      if style == CrStyle { PrintedStart(lines[1..], style); }
      LinesAt(lines[0], PrintLines(lines[1..], style), style);
      LinesOfPrinted(lines[1..], style);
    }
  }

  lemma Reassociate(a: Bytes, b: Bytes, c: Bytes, d: Bytes)
    ensures a + b + c + d == a + (b + c + d)
  {
  }

  lemma InterpretCons(b: Buffers, line: Bytes, rest: seq<Bytes>)
    requires line != []
    ensures Interpret(b, [line] + rest) == Interpret(ProcessLine(b, line), rest)
  {
    assert ([line] + rest)[1..] == rest;
  }

  lemma ProcessDataLine(b: Buffers, piece: Bytes, spaced: bool)
    requires OneLine(piece) && ValidUtf8(piece)
    ensures var line := DATA_FIELD + Separator(piece, spaced) + piece;
            ProcessLine(b, line) == b.(data := b.data + piece + [LF])
  {
    hide BeforeColon, AfterColon, WithoutSpace, ValidUtf8, Ascii;
    Names();
    PrefixedLine(DATA_FIELD, piece, spaced);
  }

  lemma ProcessEventLine(b: Buffers, name: Bytes, spaced: bool)
    requires OneLine(name) && ValidUtf8(name)
    ensures var line := EVENT_FIELD + Separator(name, spaced) + name;
            ProcessLine(b, line) == b.(eventType := name)
  {
    hide BeforeColon, AfterColon, WithoutSpace, ValidUtf8, Ascii;
    Names();
    PrefixedLine(EVENT_FIELD, name, spaced);
  }

  lemma {:induction false} InterpretDataLines(b: Buffers, pieces: seq<Bytes>, rest: seq<Bytes>, spaced: bool)
    requires TextPieces(pieces)
    ensures Interpret(b, DataLines(pieces, spaced) + rest)
         == Interpret(b.(data := b.data + DataBuffer(pieces)), rest)
    decreases |pieces|
  {
    if pieces == [] {
      assert DataLines(pieces, spaced) + rest == rest;
      assert b.data + [] == b.data;
    } else {
      hide Interpret, ProcessLine;
      var line := DATA_FIELD + Separator(pieces[0], spaced) + pieces[0];
      var b' := b.(data := b.data + pieces[0] + [LF]);
      ProcessDataLine(b, pieces[0], spaced);
      InterpretCons(b, line, DataLines(pieces[1..], spaced) + rest);
      assert DataLines(pieces, spaced) + rest == [line] + (DataLines(pieces[1..], spaced) + rest);
      InterpretDataLines(b', pieces[1..], rest, spaced);
      Reassociate(b.data, pieces[0], [LF], DataBuffer(pieces[1..]));
    }
  }

  lemma InterpretEvent(e: Event, rest: seq<Bytes>, spaced: bool)
    requires Printable(e)
    ensures Interpret(EMPTY, FieldLines(e, spaced) + [[]] + rest) == [e] + Interpret(EMPTY, rest)
  {
    hide ValidUtf8, Join, DataBuffer, ProcessLine, DataLines, Pieces, Separator;
    ProcessEventLine(EMPTY, e.name, spaced);
    PiecesJoin(e.data);
    DataBufferIsJoin(Pieces(e.data));
    var first := EVENT_FIELD + Separator(e.name, spaced) + e.name;
    var more := DataLines(Pieces(e.data), spaced) + ([[]] + rest);
    assert FieldLines(e, spaced) + [[]] + rest == [first] + more;
    InterpretCons(EMPTY, first, more);
    var named := EMPTY.(eventType := e.name);
    InterpretDataLines(named, Pieces(e.data), [[]] + rest, spaced);
    BlankDispatches(e, named.(data := [] + DataBuffer(Pieces(e.data))), rest);
  }

  lemma BlankDispatches(e: Event, full: Buffers, rest: seq<Bytes>)
    requires e.name != [] && full.eventType == e.name && full.data == [] + (e.data + [LF])
    ensures Interpret(full, [[]] + rest) == [e] + Interpret(EMPTY, rest)
  {
    hide Ascii;
    assert ([[]] + rest)[1..] == rest;
    assert full.data == e.data + [LF];
  }

  lemma {:induction false} DataLinesAreFieldLines(pieces: seq<Bytes>, spaced: bool)
    requires TextPieces(pieces)
    ensures FieldLineList(DataLines(pieces, spaced))
    decreases |pieces|
  {
    if pieces != [] {
      PrefixedLine(DATA_FIELD, pieces[0], spaced);
      DataLinesAreFieldLines(pieces[1..], spaced);
    }
  }

  lemma FieldLinesAreFieldLines(e: Event, spaced: bool)
    requires Printable(e)
    ensures FieldLineList(FieldLines(e, spaced))
  {
    hide FieldLine, Separator, Pieces, ValidUtf8;
    PrefixedLine(EVENT_FIELD, e.name, spaced);
    PiecesJoin(e.data);
    DataLinesAreFieldLines(Pieces(e.data), spaced);
  }

  lemma {:induction false} InterpretEvents(events: seq<Event>, spaced: bool)
    requires forall e <- events :: Printable(e)
    ensures Interpret(EMPTY, EventLines(events, spaced)) == events
    ensures OneLines(EventLines(events, spaced))
    decreases |events|
  {
    if events != [] {
      hide Interpret, FieldLines, FieldLine, Printable;
      InterpretEvent(events[0], EventLines(events[1..], spaced), spaced);
      FieldLinesAreFieldLines(events[0], spaced);
      InterpretEvents(events[1..], spaced);
    }
  }

  lemma NoMark(events: seq<Event>, style: Style, spaced: bool)
    ensures WithoutMark(Print(events, style, spaced)) == Print(events, style, spaced)
  {
    if events != [] {
      assert EventLines(events, spaced)[0] == FieldLines(events[0], spaced)[0];
      assert Print(events, style, spaced)[0] == EVENT_FIELD[0];
    }
  }

  /** The standard reads a printed list back, whatever the terminator style and spacing. */
  lemma PrintedReading(events: seq<Event>, style: Style, spaced: bool)
    requires forall e <- events :: Printable(e)
    ensures Reading(Print(events, style, spaced)) == events
  {
    hide Interpret, Lines, EventLines, PrintLines, WithoutMark;
    InterpretEvents(events, spaced);
    LinesOfPrinted(EventLines(events, spaced), style);
    NoMark(events, style, spaced);
  }

  // ---------------------------------------------------------------------------------------------
  // When a printed stream is accepted
  // ---------------------------------------------------------------------------------------------

  predicate AtLineStart(p: Parser, lim: Limits)
  {
    p.line == [] && p.lineBytes == 0 && !p.pendingCr && p.eventBytes <= lim.maxEvent
  }

  function WithLine(p: Parser, line: Bytes): Parser
  {
    p.(line := line, lineBytes := |line|)
  }

  lemma {:induction false} FeedContent(p: Parser, a: Bytes, l: Bytes, lim: Limits)
    requires AtLineStart(p, lim) && OneLine(l)
    ensures var fed := FeedBytes(WithLine(p, a), l, lim);
            if l == [] || |a| + |l| + p.eventBytes <= lim.maxEvent
            then fed == Next(WithLine(p, a + l), []) else fed.Stop?
    decreases |l|
  {
    if l == [] {
      assert a + l == a;
    } else {
      FeedContent(p, a + [l[0]], l[1..], lim);
      assert a + [l[0]] + l[1..] == a + l;
    }
  }

  /** The line and its terminator fit next to what the event already holds. */
  predicate Fits(p: Parser, l: Bytes, style: Style, lim: Limits)
  {
    && (l == [] || |l| + p.eventBytes <= lim.maxEvent)
    && (style == LfStyle || |l| + p.eventBytes + 1 <= lim.maxEvent)
  }

  lemma DecodesConcat(p: Parser, a: Bytes, b: Bytes, lim: Limits)
    ensures Decodes(p, a + b, lim) <==>
            FeedBytes(p, a, lim).Next? && Decodes(FeedBytes(p, a, lim).state, b, lim)
  {
    hide FeedBytes, FinishParser;
    FeedBytesConcat(p, a, b, lim);
  }

  /** A line ended by a pending CR is settled by whatever comes next, the end of input included. */
  lemma PendingSettles(p: Parser, rest: Bytes, lim: Limits)
    requires !p.pendingCr && (rest == [] || rest[0] != LF)
    requires p.lineBytes == |p.line| && OneLine(p.line)
    ensures var ended := LineReady(p, lim);
            Decodes(p.(pendingCr := true), rest, lim) <==> ended.Next? && Decodes(ended.state, rest, lim)
  {
    hide LineReady, TakeByte;
    var q := p.(pendingCr := true);
    assert q.(pendingCr := false) == p;
    LineReadyClears(p, lim);
    if rest != [] {
      var ended := LineReady(p, lim);
      if ended.Next? {
        assert FeedByte(q, rest[0], lim) == Prepend(ended.events, FeedByte(ended.state, rest[0], lim));
      }
    }
  }

  lemma LineReadyClears(p: Parser, lim: Limits)
    requires !p.pendingCr
    ensures LineReady(p, lim).state.line == [] && !LineReady(p, lim).state.pendingCr
    ensures LineReady(p, lim).state.lineBytes == 0
  {
    hide ValidUtf8, StripBom, Find, FieldValue, Lower, Join;
  }

  /** One printed line in front of a stream: it must fit and be accepted, and the rest must decode. */
  lemma DecodesLine(p: Parser, l: Bytes, rest: Bytes, style: Style, lim: Limits)
    requires AtLineStart(p, lim) && OneLine(l)
    requires style == CrStyle ==> rest == [] || rest[0] != LF
    ensures var ended := LineReady(WithLine(p, l), lim);
            Decodes(p, l + Terminator(style) + rest, lim)
            <==> Fits(p, l, style, lim) && ended.Next? && Decodes(ended.state, rest, lim)
  {
    hide LineReady, FinishParser;
    var q := WithLine(p, l);
    assert WithLine(p, []) == p && [] + l == l;
    FeedContent(p, [], l, lim);
    assert l + Terminator(style) + rest == l + (Terminator(style) + rest);
    DecodesConcat(p, l, Terminator(style) + rest, lim);
    if l == [] || |l| + p.eventBytes <= lim.maxEvent {
      match style {
        case LfStyle =>
          FeedOne(q, LF, lim);
          DecodesConcat(q, [LF], rest, lim);
        case CrStyle =>
          FeedOne(q, CR, lim);
          DecodesConcat(q, [CR], rest, lim);
          PendingSettles(q, rest, lim);
        case CrLfStyle =>
          FeedOne(q, CR, lim);
          DecodesConcat(q, [CR], [LF] + rest, lim);
          assert [CR] + ([LF] + rest) == [CR, LF] + rest;
          var r := q.(pendingCr := true);
          assert r.(pendingCr := false) == q;
          FeedOne(r, LF, lim);
          DecodesConcat(r, [LF], rest, lim);
      }
    }
  }

  lemma FeedOne(p: Parser, b: Byte, lim: Limits)
    ensures FeedBytes(p, [b], lim).Next? <==> FeedByte(p, b, lim).Next?
    ensures FeedBytes(p, [b], lim).state == FeedByte(p, b, lim).state
  {
    hide FeedByte;
    FeedBytesSnoc(p, [], b, lim);
    assert [] + [b] == [b];
    assert FeedBytes(p, [], lim) == Next(p, []);
  }

  /** Printed field lines decode exactly while their cost fits; `q` is the parser behind them. */
  lemma {:induction false} DecodesFieldLines(p: Parser, lines: seq<Bytes>, rest: seq<Bytes>, style: Style, lim: Limits)
      returns (q: Parser)
    requires AtLineStart(p, lim)
    requires FieldLineList(lines)
    requires OneLines(rest)
    ensures p.eventBytes + Cost(lines) > lim.maxEvent ==> !Decodes(p, PrintLines(lines + rest, style), lim)
    ensures p.eventBytes + Cost(lines) <= lim.maxEvent ==>
              && AtLineStart(q, lim) && q.eventBytes == p.eventBytes + Cost(lines)
              && (Decodes(p, PrintLines(lines + rest, style), lim) <==> Decodes(q, PrintLines(rest, style), lim))
    decreases |lines|
  {
    hide Decodes;
    if lines == [] {
      q := p;
      assert lines + rest == rest;
    } else {
      var l, all := lines[0], lines + rest;
      assert all[1..] == lines[1..] + rest;
      if style == CrStyle { PrintedStart(all[1..], style); }
      DecodesLine(p, l, PrintLines(all[1..], style), style, lim);
      FieldLineReady(p, l, lim);
      var ended := LineReady(WithLine(p, l), lim);
      if ended.Next? {
        q := DecodesFieldLines(ended.state, lines[1..], rest, style, lim);
      } else {
        q := p;
      }
    }
  }

  lemma FieldLineReady(p: Parser, l: Bytes, lim: Limits)
    requires AtLineStart(p, lim) && FieldLine(l)
    ensures var ended := LineReady(WithLine(p, l), lim);
            && (ended.Next? <==> p.eventBytes + |l| + 1 <= lim.maxEvent)
            && (ended.Next? ==> AtLineStart(ended.state, lim) && ended.state.eventBytes == p.eventBytes + |l| + 1)
  {
  }

  lemma BlankLineReady(p: Parser, lim: Limits)
    requires AtLineStart(p, lim)
    ensures var ended := LineReady(WithLine(p, []), lim);
            ended.Next? && AtLineStart(ended.state, lim) && ended.state.eventBytes == 0
  {
  }

  /** One printed event in front of further lines: it must fit, and the rest must decode. */
  lemma DecodesEvent(p: Parser, e: Event, rest: seq<Bytes>, style: Style, spaced: bool, lim: Limits) returns (q: Parser)
    requires AtLineStart(p, lim) && p.eventBytes == 0 && Printable(e) && OneLines(rest)
    ensures var whole := PrintLines(FieldLines(e, spaced) + ([[]] + rest), style);
            if EventCost(e, style, spaced) > lim.maxEvent then !Decodes(p, whole, lim)
            else AtLineStart(q, lim) && q.eventBytes == 0
                 && (Decodes(p, whole, lim) <==> Decodes(q, PrintLines(rest, style), lim))
  {
    hide Decodes, LineReady, Cost, FieldLines, Printable;
    FieldLinesAreFieldLines(e, spaced);
    var r := DecodesFieldLines(p, FieldLines(e, spaced), [[]] + rest, style, lim);
    q := r;
    assert ([[]] + rest)[1..] == rest;
    if style == CrStyle { PrintedStart(rest, style); }
    if Cost(FieldLines(e, spaced)) <= lim.maxEvent {
      DecodesLine(r, [], PrintLines(rest, style), style, lim);
      BlankLineReady(r, lim);
      q := LineReady(WithLine(r, []), lim).state;
    }
  }

  lemma {:induction false} DecodesEvents(p: Parser, events: seq<Event>, style: Style, spaced: bool, lim: Limits)
    requires AtLineStart(p, lim) && p.eventBytes == 0
    requires forall e <- events :: Printable(e)
    ensures Decodes(p, Print(events, style, spaced), lim)
       <==> forall e <- events :: EventCost(e, style, spaced) <= lim.maxEvent
    decreases |events|
  {
    if events == [] {
      assert Print(events, style, spaced) == [];
    } else {
      hide Decodes, EventCost, FieldLines, Printable, PrintLines;
      var e, rest := events[0], EventLines(events[1..], spaced);
      InterpretEvents(events[1..], spaced);
      assert EventLines(events, spaced) == FieldLines(e, spaced) + ([[]] + rest);
      var q := DecodesEvent(p, e, rest, style, spaced, lim);
      if EventCost(e, style, spaced) <= lim.maxEvent {
        DecodesEvents(q, events[1..], style, spaced, lim);
      }
      assert forall d <- events :: d == e || d in events[1..];
    }
  }

  lemma SessionDecodes(chunks: seq<Bytes>, lim: Limits)
    ensures DecodeSession(chunks, lim).Next?
       <==> |Flatten(chunks)| <= lim.maxResponse && Decodes(START, Flatten(chunks), lim)
  {
    hide FeedBytes, FinishParser;
    ChunksAreOneChunk(FRESH, chunks, lim);
  }

  /** Decoding undoes printing: in any terminator style, spacing and cutting into chunks, the session gives
      the printed list back if and only if the stream and each event are within the limits. */
  lemma RoundTripExactlyWithinLimits(events: seq<Event>, style: Style, spaced: bool, chunks: seq<Bytes>, lim: Limits)
    requires forall e <- events :: Printable(e)
    requires Flatten(chunks) == Print(events, style, spaced)
    ensures (DecodeSession(chunks, lim).Next? && DecodeSession(chunks, lim).events == events)
       <==> (|Print(events, style, spaced)| <= lim.maxResponse && forall e <- events :: EventCost(e, style, spaced) <= lim.maxEvent)
  {
    hide DecodeSession, Decodes, Print, EventCost, Reading;
    SessionDecodes(chunks, lim);
    DecodesEvents(START, events, style, spaced, lim);
    if DecodeSession(chunks, lim).Next? {
      DecoderFollowsStandard(chunks, lim);
      PrintedReading(events, style, spaced);
    }
  }
}
