/**
 The whole-stream reading of section 9.2.6 of the HTML Standard, with the line rules of section
 9.2.5, and the theorem that the byte-at-a-time decoder computes it.

 The reading keeps the standard's own buffers: a data buffer to which every data line is appended
 together with a line feed, and an event type buffer that starts out empty. It splits the complete
 stream into lines first and knows nothing of partial lines or pending carriage returns.
 */
module SseReference {
  import opened Text
  import opened SseDecoder

  /** The bytes of an ASCII text. */
  function Ascii(text: string): (r: Bytes)
    requires forall i | 0 <= i < |text| :: text[i] < '\U{80}'
  {
    seq(|text|, i requires 0 <= i < |text| => text[i] as int)
  }

  predicate IsTerminator(b: Byte) { b == '\n' as int || b == '\r' as int }

  /** Where the first line of `s` ends, |s| when no terminator occurs. */
  function LineEnd(s: Bytes): (k: nat)
    ensures k <= |s|
    ensures OneLine(s[..k])
    ensures k < |s| ==> IsTerminator(s[k])
  {
    if s == [] || IsTerminator(s[0]) then 0 else LineEnd(s[1..]) + 1
  }

  /** The terminated lines of a stream: CR LF, a lone LF and a lone CR each end one line; what follows
      the last terminator is not a line. */
  function Lines(s: Bytes): seq<Bytes>
    decreases |s|
  {
    var k := LineEnd(s);
    if k == |s| then []
    else if s[k] == '\r' as int && k + 1 < |s| && s[k + 1] == '\n' as int then [s[..k]] + Lines(s[k + 2..])
    else [s[..k]] + Lines(s[k + 1..])
  }

  datatype Buffers = Buffers(data: Bytes, eventType: Bytes)

  const EMPTY := Buffers([], [])

  /** The characters before the first colon, all of them if there is none. */
  function BeforeColon(line: Bytes): Bytes
  {
    if line == [] || line[0] == ':' as int then [] else [line[0]] + BeforeColon(line[1..])
  }

  /** The characters after the first colon, none if there is none. */
  function AfterColon(line: Bytes): Bytes
  {
    if line == [] then [] else if line[0] == ':' as int then line[1..] else AfterColon(line[1..])
  }

  /** One leading space is removed from a value. */
  function WithoutSpace(value: Bytes): Bytes
  {
    if value != [] && value[0] == ' ' as int then value[1..] else value
  }

  function ProcessLine(b: Buffers, line: Bytes): Buffers
    requires line != []
  {
    var field, value := BeforeColon(line), WithoutSpace(AfterColon(line));
    if line[0] == ':' as int then b
    else if field == Ascii("event") then b.(eventType := value)
    else if field == Ascii("data") then b.(data := b.data + value + Ascii("\n"))
    else b
  }

  function DispatchBuffers(b: Buffers): seq<Event>
  {
    if b.data == [] then []
    else [Event(if b.eventType == [] then Ascii("message") else b.eventType, b.data[..|b.data| - 1])]
  }

  function Interpret(b: Buffers, lines: seq<Bytes>): seq<Event>
    decreases |lines|
  {
    if lines == [] then []
    else if lines[0] == [] then DispatchBuffers(b) + Interpret(EMPTY, lines[1..])
    else Interpret(ProcessLine(b, lines[0]), lines[1..])
  }

  /** UTF-8 decoding drops one leading byte order mark. */
  function WithoutMark(stream: Bytes): Bytes
  {
    if |stream| >= 3 && stream[0] == 0xEF && stream[1] == 0xBB && stream[2] == 0xBF then stream[3..] else stream
  }

  /** The events a whole stream stands for. */
  function Reading(stream: Bytes): seq<Event>
  {
    Interpret(EMPTY, Lines(WithoutMark(stream)))
  }

  // ---------------------------------------------------------------------------------------------
  // Fields and values
  // ---------------------------------------------------------------------------------------------

  /** The decoder's constants spell the names of the standard. */
  lemma Names()
    ensures DATA_FIELD == Ascii("data") && EVENT_FIELD == Ascii("event") && MESSAGE == Ascii("message")
    ensures [LF] == Ascii("\n")
  {
  }

  lemma {:induction false} SplitAtColon(field: Bytes, value: Bytes)
    requires COLON !in field
    ensures BeforeColon(field + [COLON] + value) == field && AfterColon(field + [COLON] + value) == value
    decreases |field|
  {
    var line := field + [COLON] + value;
    if field == [] {
      assert line == [COLON] + value;
    } else {
      assert line[0] == field[0] && line[1..] == field[1..] + [COLON] + value;
      SplitAtColon(field[1..], value);
    }
  }

  lemma {:induction false} NoColon(line: Bytes)
    requires COLON !in line
    ensures BeforeColon(line) == line && AfterColon(line) == []
    decreases |line|
  {
    if line != [] { NoColon(line[1..]); }
  }

  lemma {:induction false} FindsColon(field: Bytes, value: Bytes)
    requires COLON !in field
    ensures Find(field, COLON) == |field| && Find(field + [COLON] + value, COLON) == |field|
    decreases |field|
  {
    var line := field + [COLON] + value;
    if field != [] {
      assert line[0] == field[0] && line[1..] == field[1..] + [COLON] + value;
      FindsColon(field[1..], value);
    }
  }

  /** The decoder's field and value are the standard's: what stands before the first colon, and what
      stands behind it less one leading space; a line without a colon has an empty value. */
  lemma FieldAndValue(field: Bytes, value: Bytes)
    requires COLON !in field
    ensures var line := field + [COLON] + value;
            && line[..Find(line, COLON)] == field
            && FieldValue(line) == if value != [] && value[0] == 0x20 then value[1..] else value
    ensures field[..Find(field, COLON)] == field && FieldValue(field) == []
  {
    FindsColon(field, value);
    var line := field + [COLON] + value;
    assert line[|field|] == COLON && line[|field| + 1..] == value;
    if value != [] { assert line[|field| + 1] == value[0] && line[|field| + 2..] == value[1..]; }
  }

  lemma FieldsAgree(line: Bytes)
    ensures line[..Find(line, COLON)] == BeforeColon(line)
    ensures FieldValue(line) == WithoutSpace(AfterColon(line))
  {
    hide FieldValue;
    var k := Find(line, COLON);
    var field := line[..k];
    if k == |line| {
      assert field == line;
      NoColon(line);
      FieldAndValue(line, []);
    } else {
      assert line == field + [COLON] + line[k + 1..];
      SplitAtColon(field, line[k + 1..]);
      FieldAndValue(field, line[k + 1..]);
    }
  }

  lemma MarksAgree(s: Bytes)
    ensures WithoutMark(s) == StripBom(s)
  {
    if |s| >= 3 { assert s[..3] == [s[0], s[1], s[2]]; }
  }

  // ---------------------------------------------------------------------------------------------
  // Splitting lines at a known terminator
  // ---------------------------------------------------------------------------------------------

  lemma {:induction false} LineEndAfter(line: Bytes, rest: Bytes)
    requires OneLine(line) && (rest == [] || IsTerminator(rest[0]))
    ensures LineEnd(line + rest) == |line|
    decreases |line|
  {
    if line == [] {
      assert line + rest == rest;
    } else {
      assert (line + rest)[1..] == line[1..] + rest;
      LineEndAfter(line[1..], rest);
    }
  }

  lemma LinesAtLf(line: Bytes, rest: Bytes)
    requires OneLine(line)
    ensures Lines(line + [LF] + rest) == [line] + Lines(rest)
  {
    var s := line + [LF] + rest;
    assert s == line + ([LF] + rest);
    LineEndAfter(line, [LF] + rest);
    assert s[|line|] == LF && s[..|line|] == line && s[|line| + 1..] == rest;
  }

  lemma LinesAtCrLf(line: Bytes, rest: Bytes)
    requires OneLine(line)
    ensures Lines(line + [CR, LF] + rest) == [line] + Lines(rest)
  {
    var s := line + [CR, LF] + rest;
    assert s == line + ([CR, LF] + rest);
    LineEndAfter(line, [CR, LF] + rest);
    assert s[|line|] == CR && s[|line| + 1] == LF && s[..|line|] == line && s[|line| + 2..] == rest;
  }

  lemma LinesAtCr(line: Bytes, rest: Bytes)
    requires OneLine(line) && (rest == [] || rest[0] != LF)
    ensures Lines(line + [CR] + rest) == [line] + Lines(rest)
  {
    var s := line + [CR] + rest;
    assert s == line + ([CR] + rest);
    LineEndAfter(line, [CR] + rest);
    assert s[|line|] == CR && s[..|line|] == line && s[|line| + 1..] == rest;
    if rest != [] { assert s[|line| + 1] == rest[0]; }
  }

  lemma LinesUnterminated(line: Bytes)
    requires OneLine(line)
    ensures Lines(line) == []
  {
    assert line + [] == line;
    LineEndAfter(line, []);
  }

  // ---------------------------------------------------------------------------------------------
  // The decoder's buffers against the standard's
  // ---------------------------------------------------------------------------------------------

  /** The standard's data buffer for a list of data lines. */
  function DataBuffer(parts: seq<Bytes>): Bytes
    decreases |parts|
  {
    if parts == [] then [] else parts[0] + [LF] + DataBuffer(parts[1..])
  }

  lemma {:induction false} DataBufferAppend(parts: seq<Bytes>, part: Bytes)
    ensures DataBuffer(parts + [part]) == DataBuffer(parts) + part + [LF]
    decreases |parts|
  {
    if parts == [] {
      assert parts + [part] == [part] && [part][1..] == [];
      assert DataBuffer([part]) == part + [LF] + [];
    } else {
      assert (parts + [part])[1..] == parts[1..] + [part];
      DataBufferAppend(parts[1..], part);
    }
  }

  lemma {:induction false} DataBufferIsJoin(parts: seq<Bytes>)
    requires parts != []
    ensures DataBuffer(parts) == Join(parts) + [LF]
    decreases |parts|
  {
    if |parts| == 1 {
      assert parts[1..] == [];
    } else {
      DataBufferIsJoin(parts[1..]);
    }
  }

  ghost predicate Agree(p: Parser, b: Buffers)
  {
    && b.data == DataBuffer(p.data)
    && p.eventName == (if b.eventType == [] then MESSAGE else b.eventType)
  }

  /** The pending bytes of the decoder: what a reading of the whole stream has not yet turned into lines. */
  function Pending(p: Parser): Bytes
  {
    p.line + if p.pendingCr then [CR] else []
  }

  /** What the standard makes of the lines still to come, given the decoder's buffers so far. */
  function InterpretFrom(p: Parser, b: Buffers, lines: seq<Bytes>): seq<Event>
  {
    if p.firstLine && lines != [] then Interpret(b, [StripBom(lines[0])] + lines[1..])
    else Interpret(b, lines)
  }

  lemma LineReadyAgrees(p: Parser, b: Buffers, lines: seq<Bytes>, lim: Limits) returns (b': Buffers)
    requires Agree(p, b) && LineReady(p, lim).Next?
    ensures Agree(LineReady(p, lim).state, b')
    ensures InterpretFrom(p, b, [p.line] + lines)
         == LineReady(p, lim).events + InterpretFrom(LineReady(p, lim).state, b', lines)
  {
    var text := LineText(p);
    var all := [text] + lines;
    assert all[0] == text && all[1..] == lines;
    assert ([p.line] + lines)[1..] == lines;
    assert InterpretFrom(p, b, [p.line] + lines) == Interpret(b, all) by { hide Interpret, LineReady; }
    if text == [] {
      b' := EMPTY;
      BlankAgrees(p, b, lim);
    } else {
      b' := ProcessLine(b, text);
      FieldAgrees(p, b, lim);
    }
  }

  lemma BlankAgrees(p: Parser, b: Buffers, lim: Limits)
    requires Agree(p, b) && LineReady(p, lim).Next? && LineText(p) == []
    ensures var step := LineReady(p, lim);
            step.events == DispatchBuffers(b) && Agree(step.state, EMPTY) && !step.state.firstLine
  {
    hide ValidUtf8, Lower, Join, Ascii;
    Names();
    if p.data != [] { DataBufferIsJoin(p.data); }
  }

  lemma FieldAgrees(p: Parser, b: Buffers, lim: Limits)
    requires Agree(p, b) && LineReady(p, lim).Next? && LineText(p) != []
    ensures var step := LineReady(p, lim);
            step.events == [] && Agree(step.state, ProcessLine(b, LineText(p))) && !step.state.firstLine
  {
    hide ValidUtf8, Lower, Join, FieldValue, Ascii;
    var text := LineText(p);
    Names();
    FieldsAgree(text);
    if text[..Find(text, COLON)] == DATA_FIELD { DataBufferAppend(p.data, FieldValue(text)); }
  }

  ghost predicate Decodes(p: Parser, bytes: Bytes, lim: Limits)
  {
    FeedBytes(p, bytes, lim).Next? && FinishParser(FeedBytes(p, bytes, lim).state, lim).Next?
  }

  function Decoded(p: Parser, bytes: Bytes, lim: Limits): seq<Event>
    requires Decodes(p, bytes, lim)
  {
    FeedBytes(p, bytes, lim).events + FinishParser(FeedBytes(p, bytes, lim).state, lim).events
  }

  lemma DecodedStep(p: Parser, bytes: Bytes, lim: Limits)
    requires bytes != [] && Decodes(p, bytes, lim)
    ensures var step := FeedByte(p, bytes[0], lim);
            && step.Next? && Decodes(step.state, bytes[1..], lim)
            && Decoded(p, bytes, lim) == step.events + Decoded(step.state, bytes[1..], lim)
  {
    hide FeedByte, FinishParser;
    var step := FeedByte(p, bytes[0], lim);
    var rest := FeedBytes(step.state, bytes[1..], lim);
    var end := FinishParser(rest.state, lim);
    assert step.events + (rest.events + end.events) == step.events + rest.events + end.events;
  }

  lemma SameReading(p: Parser, q: Parser, b: Buffers, lines: seq<Bytes>)
    requires p.firstLine == q.firstLine
    ensures InterpretFrom(p, b, lines) == InterpretFrom(q, b, lines)
  {
  }

  /** One byte turns the pending bytes in front of the remaining stream into whole lines or into new
      pending bytes, and the standard's reading of the two is the same. */
  lemma ByteAgrees(p: Parser, b: Buffers, byte: Byte, rest: Bytes, lim: Limits) returns (b': Buffers)
    requires Bounded(p, lim) && Agree(p, b) && FeedByte(p, byte, lim).Next?
    ensures var step := FeedByte(p, byte, lim);
            && Bounded(step.state, lim) && Agree(step.state, b')
            && InterpretFrom(p, b, Lines(Pending(p) + [byte] + rest))
               == step.events + InterpretFrom(step.state, b', Lines(Pending(step.state) + rest))
  {
    hide LineReady, TakeByte, Lines, InterpretFrom;
    FeedByteBounded(p, byte, lim);
    if p.pendingCr {
      var q := p.(pendingCr := false);
      LineReadyBounded(q, lim);
      SameReading(p, q, b, Lines(Pending(p) + [byte] + rest));
      var ended := LineReady(q, lim);
      if byte == LF {
        assert Pending(p) + [byte] + rest == p.line + [CR, LF] + rest;
        LinesAtCrLf(p.line, rest);
        b' := LineReadyAgrees(q, b, Lines(rest), lim);
        assert Pending(ended.state) + rest == rest;
      } else {
        assert Pending(p) + [byte] + rest == p.line + [CR] + ([byte] + rest);
        LinesAtCr(p.line, [byte] + rest);
        b' := LineReadyAgrees(q, b, Lines([byte] + rest), lim);
        var middle := b';
        b' := TakenAgrees(ended.state, middle, byte, rest, lim);
        assert Pending(ended.state) + [byte] + rest == [byte] + rest;
        var last := TakeByte(ended.state, byte, lim);
        assert ended.events + (last.events + InterpretFrom(last.state, b', Lines(Pending(last.state) + rest)))
            == ended.events + last.events + InterpretFrom(last.state, b', Lines(Pending(last.state) + rest));
      }
    } else {
      b' := TakenAgrees(p, b, byte, rest, lim);
    }
  }

  lemma TakenAgrees(p: Parser, b: Buffers, byte: Byte, rest: Bytes, lim: Limits) returns (b': Buffers)
    requires Bounded(p, lim) && Agree(p, b) && !p.pendingCr && TakeByte(p, byte, lim).Next?
    ensures var step := TakeByte(p, byte, lim);
            && Agree(step.state, b')
            && InterpretFrom(p, b, Lines(Pending(p) + [byte] + rest))
               == step.events + InterpretFrom(step.state, b', Lines(Pending(step.state) + rest))
  {
    hide LineReady, Lines, InterpretFrom;
    var step := TakeByte(p, byte, lim);
    if byte == LF {
      LineReadyBounded(p, lim);
      assert Pending(p) + [byte] + rest == p.line + [LF] + rest;
      LinesAtLf(p.line, rest);
      b' := LineReadyAgrees(p, b, Lines(rest), lim);
      assert Pending(step.state) + rest == rest;
    } else {
      b' := b;
      assert Pending(step.state) + rest == Pending(p) + [byte] + rest;
      SameReading(p, step.state, b, Lines(Pending(p) + [byte] + rest));
    }
  }

  lemma EndAgrees(p: Parser, b: Buffers, lim: Limits)
    requires Bounded(p, lim) && Agree(p, b) && FinishParser(p, lim).Next?
    ensures FinishParser(p, lim).events == InterpretFrom(p, b, Lines(Pending(p)))
  {
    if p.pendingCr {
      var q := p.(pendingCr := false);
      assert Pending(p) == p.line + [CR] + [];
      LinesAtCr(p.line, []);
      LinesUnterminated([]);
      var b' := LineReadyAgrees(q, b, [], lim);
    } else {
      assert Pending(p) == p.line;
      LinesUnterminated(p.line);
      EndYieldsOnlyAfterCr(p, lim);
    }
  }

  lemma {:induction false} StreamAgrees(p: Parser, b: Buffers, bytes: Bytes, lim: Limits)
    requires Bounded(p, lim) && Agree(p, b) && Decodes(p, bytes, lim)
    ensures Decoded(p, bytes, lim) == InterpretFrom(p, b, Lines(Pending(p) + bytes))
    decreases |bytes|
  {
    hide FeedByte, FinishParser, Lines, InterpretFrom;
    if bytes == [] {
      EndAgrees(p, b, lim);
      assert Pending(p) + [] == Pending(p);
    } else {
      DecodedStep(p, bytes, lim);
      var b' := ByteAgrees(p, b, bytes[0], bytes[1..], lim);
      assert Pending(p) + bytes == Pending(p) + [bytes[0]] + bytes[1..];
      StreamAgrees(FeedByte(p, bytes[0], lim).state, b', bytes[1..], lim);
    }
  }

  /** A mark in front of the stream lengthens its first line and changes no other. */
  lemma MarkedFirstLine(rest: Bytes)
    ensures Lines(rest) == [] ==> Lines(BOM + rest) == []
    ensures Lines(rest) != [] ==> Lines(BOM + rest) == [BOM + Lines(rest)[0]] + Lines(rest)[1..]
  {
    hide Lines;
    var stream, k := BOM + rest, LineEnd(rest);
    var line := rest[..k];
    if k == |rest| {
      LinesUnterminated(rest);
      LinesUnterminated(stream);
    } else if rest[k] == LF {
      var tail := rest[k + 1..];
      assert rest == line + [LF] + tail && stream == BOM + line + [LF] + tail;
      LinesAtLf(line, tail);
      LinesAtLf(BOM + line, tail);
    } else if k + 1 < |rest| && rest[k + 1] == LF {
      var tail := rest[k + 2..];
      assert rest == line + [CR, LF] + tail && stream == BOM + line + [CR, LF] + tail;
      LinesAtCrLf(line, tail);
      LinesAtCrLf(BOM + line, tail);
    } else {
      var tail := rest[k + 1..];
      assert rest == line + [CR] + tail && stream == BOM + line + [CR] + tail;
      LinesAtCr(line, tail);
      LinesAtCr(BOM + line, tail);
    }
  }

  lemma FirstLineIsPrefix(s: Bytes)
    ensures Lines(s) != [] ==> Lines(s)[0] <= s
  {
    assert s[..LineEnd(s)] <= s;
  }

  /** The byte order mark of the stream is the byte order mark of its first line. */
  lemma BomOnFirstLine(stream: Bytes)
    ensures InterpretFrom(START, EMPTY, Lines(stream)) == Reading(stream)
  {
    hide Interpret, Lines, WithoutMark;
    MarksAgree(stream);
    if BOM <= stream {
      var rest := stream[3..];
      assert stream == BOM + rest;
      MarkedFirstLine(rest);
      var lines := Lines(rest);
      if lines != [] {
        var marked := BOM + lines[0];
        assert marked[3..] == lines[0];
        assert ([marked] + lines[1..])[1..] == lines[1..];
        assert [lines[0]] + lines[1..] == lines;
      }
    } else {
      var lines := Lines(stream);
      if lines != [] {
        FirstLineIsPrefix(stream);
        assert StripBom(lines[0]) == lines[0];
        assert [lines[0]] + lines[1..] == lines;
      }
    }
  }

  /** However a stream is cut into chunks, a session that succeeds yields exactly the events that the
      standard reads out of the whole stream. */
  lemma DecoderFollowsStandard(chunks: seq<Bytes>, lim: Limits)
    requires DecodeSession(chunks, lim).Next?
    ensures DecodeSession(chunks, lim).events == Reading(Flatten(chunks))
  {
    hide FinishParser, Reading, FeedByte, InterpretFrom, Lines;
    var stream := Flatten(chunks);
    ChunksAreOneChunk(FRESH, chunks, lim);
    assert DataBuffer([]) == [];
    StreamAgrees(START, EMPTY, stream, lim);
    assert Pending(START) + stream == stream;
    BomOnFirstLine(stream);
  }
}
