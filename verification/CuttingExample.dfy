/**
 A Chat stream whose acceptance depends on the cutting.

 A printed event list that is a whole answer, with one letter behind it, is answered when the letter
 arrives in a chunk of its own and refused when it arrives with the answer's last byte.
 */
module CuttingExample {
  import opened Options
  import opened Text
  import opened Json
  import opened SseDecoder
  import opened SsePrinting
  import opened StreamMessages
  import opened StreamAssembler
  import opened InferenceLoop
  import opened StreamCuttings
  import opened WireAnswers
  import Chat = ChatCompletions

  // ---------------------------------------------------------------------------------------------
  // One letter too many
  // ---------------------------------------------------------------------------------------------

  /** For every printed answer and every letter behind it there is a cutting that is answered and one
      that is refused. */
  lemma LateLetterDecides(r: Request, events: seq<Event>, late: Byte)
    requires events != [] && WithinLimits(events, true, r.lim) && 0x41 <= late <= 0x7A
    requires var a := AfterAll(Fresh(r.protocol), Messages(events, r.present)); a.Some? && a.value.complete
    ensures var stream := Print(events, LfStyle, true);
            && Answering(r, [stream, [late]]).Answered?
            && Answering(r, [stream + [late]]).Failed?
  {
    hide FeedBytes, AfterAll, Print, After, Consume;
    var stream := Print(events, LfStyle, true);
    var opening := Opening(r.protocol);
    PrintedFeeds(events, true, r.lim);
    NothingRead(r);
    ConsumeLeads(r, opening, [], stream);
    assert [] + stream == stream;
    assert SessionAfter(r, stream).Some?;
    LateBytesInChunkRefused(opening, stream, late, r.lim, r.present);
  }

  const DONE_DATA: Bytes := [0x5B, 0x44, 0x4F, 0x4E, 0x45, 0x5D]

  /** `{"choices":[{"finish_reason":"stop"}]}` */
  const STOP_DATA: Bytes :=
    [0x7B, 0x22, 0x63, 0x68, 0x6F, 0x69, 0x63, 0x65, 0x73, 0x22, 0x3A, 0x5B,
     0x7B, 0x22, 0x66, 0x69, 0x6E, 0x69, 0x73, 0x68, 0x5F, 0x72, 0x65, 0x61, 0x73, 0x6F, 0x6E, 0x22, 0x3A,
     0x22, 0x73, 0x74, 0x6F, 0x70, 0x22, 0x7D, 0x5D, 0x7D]

  const STOP_FIELDS: Fields := map["choices" := Arr([Obj(map["finish_reason" := Str("stop")])])]

  /** The JSON decoding of the two events of the example. */
  function Presented(e: Event): Message
  {
    if e.data == DONE_DATA then Message("message", Done)
    else if e.data == STOP_DATA then Message("message", Object(STOP_FIELDS))
    else Message("message", Unreadable)
  }

  const EXAMPLE: seq<Event> := [Event(MESSAGE, STOP_DATA), Event(MESSAGE, DONE_DATA)]

  /** The decoder's default limits. */
  const DEFAULTS := Limits(1048576, 8388608)

  lemma OneDataLine(e: Event)
    requires LF !in e.data
    ensures FieldLines(e, true) == [EVENT_FIELD + [COLON, SPACE] + e.name, DATA_FIELD + [COLON, SPACE] + e.data]
  {
    assert Pieces(e.data) == [e.data];
    assert [e.data][1..] == [];
  }

  lemma {:induction false} PrintedLength(lines: seq<Bytes>)
    ensures |PrintLines(lines, LfStyle)| == Cost(lines)
    decreases |lines|
  {
    if lines != [] { PrintedLength(lines[1..]); }
  }

  lemma TwoLineCost(a: Bytes, b: Bytes)
    ensures Cost([a, b]) == |a| + |b| + 2
  {
    assert [a, b][1..] == [b];
    assert [b][1..] == [];
    assert Cost([b]) == |b| + 1;
  }

  /** One event of the example: it has one data line and is far below the limits. */
  lemma ExampleEvent(data: Bytes)
    requires |data| < 1000 && forall i | 0 <= i < |data| :: 0x20 <= data[i] < 0x80
    ensures var e := Event(MESSAGE, data);
            Printable(e) && Cost(FieldLines(e, true)) < 2000
  {
    hide Cost, ValidUtf8;
    AsciiValid(MESSAGE);
    AsciiValid(data);
    OneDataLine(Event(MESSAGE, data));
    TwoLineCost(EVENT_FIELD + [COLON, SPACE] + MESSAGE, DATA_FIELD + [COLON, SPACE] + data);
  }

  lemma {:induction false} CostConcat(a: seq<Bytes>, b: seq<Bytes>)
    ensures Cost(a + b) == Cost(a) + Cost(b)
    decreases |a|
  {
    if a == [] {
      assert a + b == b;
    } else {
      assert (a + b)[1..] == a[1..] + b;
      CostConcat(a[1..], b);
    }
  }

  lemma EventAddsCost(events: seq<Event>)
    requires events != []
    ensures Cost(EventLines(events, true)) == Cost(FieldLines(events[0], true)) + 1 + Cost(EventLines(events[1..], true))
  {
    hide FieldLines;
    var blank: seq<Bytes> := [[]];
    CostConcat(FieldLines(events[0], true) + blank, EventLines(events[1..], true));
    CostConcat(FieldLines(events[0], true), blank);
    assert blank[1..] == [];
    assert Cost(blank) == 1;
  }

  lemma NoEventCostsNothing()
    ensures EventLines([], true) == [] && Cost([]) == 0
  {
  }

  lemma ExampleFits()
    ensures WithinLimits(EXAMPLE, true, DEFAULTS)
    ensures |Print(EXAMPLE, LfStyle, true)| < DEFAULTS.maxResponse
  {
    hide FieldLines, Cost, PrintLines, EventLines, ValidUtf8, Printable;
    NoEventCostsNothing();
    ExampleEvent(STOP_DATA);
    ExampleEvent(DONE_DATA);
    var last := [Event(MESSAGE, DONE_DATA)];
    assert EXAMPLE[1..] == last && last[1..] == [];
    EventAddsCost(EXAMPLE);
    EventAddsCost(last);
    PrintedLength(EventLines(EXAMPLE, true));
  }

  const CHOICE: Fields := map["finish_reason" := Str("stop")]
  const FINISHED := Chat.CHAT_START.(finish := Some("stop"))

  lemma ChoiceFinishes()
    ensures Chat.ChoiceOf(Get(STOP_FIELDS, "choices")) == Some(CHOICE)
    ensures Chat.OnChoice(Chat.CHAT_START, CHOICE) == Continue(FINISHED)
  {
    assert Get(CHOICE, "delta") == Null && Get(CHOICE, "index") == Null;
    var delta: Fields := map[];
    assert Chat.ScreenDelta(delta) == Fine;
    var none: seq<string> := [];
    assert none + none == none;
  }

  lemma StopFinishes()
    ensures Chat.ChatFeed(Chat.CHAT_START, Message("message", Object(STOP_FIELDS))) == Continue(FINISHED)
  {
    hide Chat.ChoiceOf, Chat.OnChoice;
    assert "refusal"[0] != "choices"[0];
    assert Chat.ScreenEvent(STOP_FIELDS) == Fine;
    ChoiceFinishes();
    assert Get(STOP_FIELDS, "choices") != Arr([]);
  }

  lemma DoneCompletes()
    ensures Chat.ChatFeed(FINISHED, Message("message", Done)).Complete?
  {
  }

  lemma AfterBoth(a: Assembler, x: Message, y: Message)
    requires Sound(a) && After(a, x).1.Accepted? && After(After(a, x).0, y).1.Accepted?
    ensures AfterAll(a, [x, y]) == Some(After(After(a, x).0, y).0)
  {
    hide After;
    assert [x, y][1..] == [y] && [y][1..] == [];
    assert AfterAll(After(a, x).0, [y]) == Some(After(After(a, x).0, y).0);
  }

  lemma ExampleCompletes()
    ensures var a := AfterAll(Fresh(OpenAiChat), Messages(EXAMPLE, Presented)); a.Some? && a.value.complete
  {
    hide Chat.ChatFeed, STOP_FIELDS;
    var stop, done := Message("message", Object(STOP_FIELDS)), Message("message", Done);
    assert STOP_DATA[0] != DONE_DATA[0];
    assert Messages(EXAMPLE, Presented) == [stop, done];
    StopFinishes();
    DoneCompletes();
    var a := After(Fresh(OpenAiChat), stop).0;
    assert After(Fresh(OpenAiChat), stop).1 == Accepted && a.chat == FINISHED;
    assert After(a, done).1 == Accepted && After(a, done).0.complete;
    AfterBoth(Fresh(OpenAiChat), stop, done);
  }

  /** A Chat stream of a stop event, `[DONE]` and the letter x, under the default limits: read whole it is
      refused, cut in front of the x it is answered. */
  lemma CuttingDecides() returns (r: Request, whole: seq<Bytes>, cut: seq<Bytes>)
    ensures Flatten(whole) == Flatten(cut)
    ensures Answering(r, whole).Failed? && Answering(r, cut).Answered?
  {
    hide Answering, Print, WithinLimits, AfterAll, Messages;
    r := Request(OpenAiChat, DEFAULTS, Presented);
    var stream := Print(EXAMPLE, LfStyle, true);
    whole, cut := [stream + [0x78]], [stream, [0x78]];
    ExampleFits();
    ExampleCompletes();
    LateLetterDecides(r, EXAMPLE, 0x78);
    assert whole[1..] == [] && cut[1..] == [[0x78]] && cut[1..][1..] == [];
  }
}
