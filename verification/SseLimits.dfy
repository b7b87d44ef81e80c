/**
 When a session is accepted at all.

 Read line by line, a stream is accepted exactly when it is within the response limit, every line is
 UTF-8, and every line fits next to what its event has been charged already: its bytes and one for its
 terminator. A blank line ends an event and is charged only where it ends with a CR. What follows the
 last terminator is judged like a line without one.
 */
module SseLimits {
  import opened Text
  import opened SseDecoder
  import opened SseReference
  import opened SsePrinting

  /** The text of a line, the first of a stream without its byte order mark. */
  function TextOf(line: Bytes, first: bool): Bytes
  {
    if first then WithoutMark(line) else line
  }

  /** A terminated line fits behind `charged` bytes of its event. */
  predicate LineFits(line: Bytes, viaCr: bool, charged: nat, first: bool, limit: nat)
  {
    && ValidUtf8(line)
    && (TextOf(line, first) != [] || viaCr ==> charged + |line| + 1 <= limit)
    && (line != [] ==> charged + |line| <= limit)
  }

  /** How the first line of a stream ends. */
  function EndingOf(stream: Bytes): Style
    requires LineEnd(stream) < |stream|
  {
    var k := LineEnd(stream);
    if stream[k] == LF then LfStyle
    else if k + 1 < |stream| && stream[k + 1] == LF then CrLfStyle
    else CrStyle
  }

  /** The stream behind its first line. */
  function Behind(stream: Bytes): Bytes
    requires LineEnd(stream) < |stream|
  {
    if EndingOf(stream) == CrLfStyle then stream[LineEnd(stream) + 2..] else stream[LineEnd(stream) + 1..]
  }

  predicate Accepted(stream: Bytes, charged: nat, first: bool, limit: nat)
    decreases |stream|
  {
    var line := stream[..LineEnd(stream)];
    if line == stream then line == [] || LineFits(line, false, charged, first, limit)
    else
      && LineFits(line, EndingOf(stream) != LfStyle, charged, first, limit)
      && Accepted(Behind(stream), if TextOf(line, first) == [] then 0 else charged + |line| + 1, false, limit)
  }

  lemma StoreExactly(p: Parser, charge: nat, text: Bytes, lim: Limits)
    requires text != []
    ensures var stored := StoreLine(p, charge, text, lim);
            && (stored.Next? <==> p.eventBytes + charge <= lim.maxEvent)
            && (stored.Next? ==> stored.state.line == p.line && stored.state.lineBytes == p.lineBytes)
            && (stored.Next? ==> stored.state.pendingCr == p.pendingCr && stored.state.firstLine == p.firstLine)
            && (stored.Next? ==> stored.state.eventBytes == p.eventBytes + charge)
  {
    hide Find, FieldValue;
  }

  lemma DispatchClears(p: Parser)
    ensures var q := Dispatch(p).0;
            && q.line == p.line && q.lineBytes == p.lineBytes && q.pendingCr == p.pendingCr
            && q.firstLine == p.firstLine && q.eventBytes == 0
  {
    hide Lower, Join;
  }

  lemma ReadyExactly(p: Parser, line: Bytes, lim: Limits)
    requires AtLineStart(p, lim)
    ensures var ended := LineReady(WithLine(p, line), lim);
            var text := TextOf(line, p.firstLine);
            && (ended.Next? <==> ValidUtf8(line) && (text != [] ==> p.eventBytes + |line| + 1 <= lim.maxEvent))
            && (ended.Next? ==> AtLineStart(ended.state, lim) && !ended.state.firstLine)
            && (ended.Next? ==> ended.state.eventBytes == if text == [] then 0 else p.eventBytes + |line| + 1)
  {
    hide ValidUtf8, StoreLine, WithoutMark, StripBom, Dispatch;
    MarksAgree(line);
    var text := TextOf(line, p.firstLine);
    var decoded := WithLine(p, line).(line := [], lineBytes := 0, firstLine := false);
    if text == [] { DispatchClears(decoded); } else { StoreExactly(decoded, |line| + 1, text, lim); }
  }

  /** What follows the last terminator. */
  lemma RemainderExactly(p: Parser, line: Bytes, lim: Limits)
    requires AtLineStart(p, lim) && OneLine(line)
    ensures Decodes(p, line, lim) <==> line == [] || LineFits(line, false, p.eventBytes, p.firstLine, lim.maxEvent)
  {
    hide LineReady, ValidUtf8;
    assert WithLine(p, []) == p && [] + line == line;
    FeedContent(p, [], line, lim);
    ReadyExactly(p, line, lim);
  }

  lemma FirstLineFits(p: Parser, line: Bytes, rest: Bytes, style: Style, lim: Limits)
    requires AtLineStart(p, lim) && OneLine(line)
    requires style == CrStyle ==> rest == [] || rest[0] != LF
    ensures var ended := LineReady(WithLine(p, line), lim);
            && (LineFits(line, style != LfStyle, p.eventBytes, p.firstLine, lim.maxEvent) ==> ended.Next?)
            && (Decodes(p, line + Terminator(style) + rest, lim)
                <==> LineFits(line, style != LfStyle, p.eventBytes, p.firstLine, lim.maxEvent)
                     && Decodes(ended.state, rest, lim))
  {
    hide LineReady, ValidUtf8, Decodes, WithoutMark;
    DecodesLine(p, line, rest, style, lim);
    ReadyExactly(p, line, lim);
  }

  lemma CutOne(s: Bytes, k: nat)
    requires k < |s|
    ensures s == s[..k] + [s[k]] + s[k + 1..]
  {
  }

  lemma CutTwo(s: Bytes, k: nat)
    requires k + 1 < |s|
    ensures s == s[..k] + [s[k], s[k + 1]] + s[k + 2..]
  {
  }

  lemma FirstLineOf(stream: Bytes)
    requires LineEnd(stream) < |stream|
    ensures stream == stream[..LineEnd(stream)] + Terminator(EndingOf(stream)) + Behind(stream)
    ensures EndingOf(stream) == CrStyle ==> Behind(stream) == [] || Behind(stream)[0] != LF
  {
    var k := LineEnd(stream);
    if EndingOf(stream) == CrLfStyle {
      CutTwo(stream, k);
    } else {
      CutOne(stream, k);
      assert stream[k + 1..] == [] || stream[k + 1..][0] == stream[k + 1];
    }
  }

  lemma {:induction false} AcceptedFrom(p: Parser, stream: Bytes, lim: Limits)
    requires AtLineStart(p, lim)
    ensures Decodes(p, stream, lim) <==> Accepted(stream, p.eventBytes, p.firstLine, lim.maxEvent)
    decreases |stream|
  {
    hide LineReady, LineFits, Decodes, TextOf, LineEnd, Terminator;
    var line := stream[..LineEnd(stream)];
    if line == stream {
      RemainderExactly(p, stream, lim);
    } else {
      FirstLineOf(stream);
      var rest := Behind(stream);
      FirstLineFits(p, line, rest, EndingOf(stream), lim);
      hide EndingOf;
      var ended := LineReady(WithLine(p, line), lim);
      if ended.Next? {
        ReadyExactly(p, line, lim);
        AcceptedFrom(ended.state, rest, lim);
      }
    }
  }

  /** In any cutting, a session succeeds exactly when the stream is within the limits line by line. */
  lemma SessionAcceptedExactly(chunks: seq<Bytes>, lim: Limits)
    ensures DecodeSession(chunks, lim).Next?
       <==> |Flatten(chunks)| <= lim.maxResponse && Accepted(Flatten(chunks), 0, true, lim.maxEvent)
  {
    hide DecodeSession, Decodes, Accepted;
    SessionDecodes(chunks, lim);
    AcceptedFrom(START, Flatten(chunks), lim);
  }
}
