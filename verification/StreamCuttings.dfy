/**
 Which cuttings of one byte stream the read loop answers.

 The loop stops at the first chunk boundary at or behind the byte that completes the answer, and looks
 at nothing further. So what has arrived by then decides, and the same stream may be answered in one
 cutting and refused in another. `AnsweredExactlyWhenClean` says when one cutting is answered,
 `EveryCuttingAnswered` when all of them are, and `CuttingDecides` gives a stream where they differ.
 */
module StreamCuttings {
  import opened Options
  import opened Text
  import opened SseDecoder
  import opened StreamMessages
  import opened StreamAssembler
  import opened InferenceLoop

  /** What a reading is made with, apart from the chunks. */
  datatype Request = Request(protocol: Protocol, lim: Limits, present: Event -> Message)

  function Answering(r: Request, chunks: seq<Bytes>): Reading
  {
    Read(r.protocol, chunks, r.lim, r.present)
  }

  /** The events of `read`, when it feeds. */
  function EventsIn(r: Request, read: Bytes): seq<Event>
  {
    var fed := FeedBytes(START, read, r.lim);
    if fed.Next? then fed.events else []
  }

  /** `read` stays within the limits and every event of it is accepted: the session it leads to. */
  function SessionAfter(r: Request, read: Bytes): (s: Option<Session>)
    ensures s.Some? ==> Sound(s.value.assembler)
  {
    var fed := FeedBytes(START, read, r.lim);
    if |read| > r.lim.maxResponse || fed.Stop? then None
    else
      match AfterAll(Fresh(r.protocol), Messages(fed.events, r.present))
      case None => None
      case Some(a) => Some(Session(Decoder(fed.state, |read|, false), a, |read|))
  }

  predicate Completes(r: Request, read: Bytes)
  {
    SessionAfter(r, read).Some? && SessionAfter(r, read).value.assembler.complete
  }

  /** Byte `p` is the one that completes the answer. */
  predicate CompletedBy(r: Request, stream: Bytes, p: nat)
  {
    && p <= |stream| && Completes(r, stream[..p])
    && forall q | 0 <= q < p :: !Completes(r, stream[..q])
  }

  predicate NeverCompletes(r: Request, stream: Bytes)
  {
    forall q | 0 <= q <= |stream| :: !Completes(r, stream[..q])
  }

  /** Between byte `p` and byte `q` there is no event, and nothing at `q` but what may be discarded. */
  predicate CleanAt(r: Request, stream: Bytes, p: nat, q: nat)
    requires p <= |stream| && q <= |stream|
  {
    && q <= r.lim.maxResponse
    && FeedBytes(START, stream[..q], r.lim).Next?
    && EventsIn(r, stream[..q]) == EventsIn(r, stream[..p])
    && TailDiscardable(FeedBytes(START, stream[..q], r.lim).state)
  }

  /** The end of the first chunk that ends at or behind byte `p`. */
  function StopAt(chunks: seq<Bytes>, p: int): (q: nat)
    ensures q <= |Flatten(chunks)|
    ensures p <= |Flatten(chunks)| ==> p <= q
    decreases |chunks|
  {
    if p <= 0 || chunks == [] then 0 else |chunks[0]| + StopAt(chunks[1..], p - |chunks[0]|)
  }

  // ---------------------------------------------------------------------------------------------
  // One chunk
  // ---------------------------------------------------------------------------------------------

  /** A session is determined by the bytes behind it, and one more chunk is refused exactly when those
      bytes lead nowhere or complete the answer with something left over. */
  lemma ConsumeLeads(r: Request, s: Session, read: Bytes, chunk: Bytes)
    requires SessionAfter(r, read) == Some(s)
    ensures var c, next := Consume(s, chunk, r.lim, r.present), SessionAfter(r, read + chunk);
            && (c.Going? <==> next.Some? && (next.value.assembler.complete ==> TailDiscardable(next.value.decoder.parser)))
            && (c.Going? ==> c.session == next.value)
  {
    hide FeedBytes, After, TailDiscardable;
    FeedBytesConcat(START, read, chunk, r.lim);
    var before, more := FeedBytes(START, read, r.lim).events, FeedBytes(s.decoder.parser, chunk, r.lim);
    if more.Next? {
      DeliverIsAfterAll(s.assembler, more.events, r.present);
      MessagesConcat(before, more.events, r.present);
      AfterAllConcat(Fresh(r.protocol), Messages(before, r.present), Messages(more.events, r.present));
    }
  }

  /** What leads nowhere has no continuation that leads anywhere. */
  lemma PrefixLeads(r: Request, a: Bytes, b: Bytes)
    requires a <= b && SessionAfter(r, b).Some?
    ensures SessionAfter(r, a).Some?
  {
    hide FeedBytes, After;
    FeedPrefix(a, b, r.lim);
    var x, y := FeedBytes(START, a, r.lim).events, FeedBytes(START, b, r.lim).events;
    assert y == x + y[|x|..];
    MessagesConcat(x, y[|x|..], r.present);
    AfterAllConcat(Fresh(r.protocol), Messages(x, r.present), Messages(y[|x|..], r.present));
  }

  /** Behind a completed answer, leading somewhere means feeding without a further event. */
  lemma CompletedLeads(r: Request, a: Bytes, b: Bytes)
    requires a <= b && Completes(r, a)
    ensures SessionAfter(r, b).Some? <==>
              |b| <= r.lim.maxResponse && FeedBytes(START, b, r.lim).Next? && EventsIn(r, b) == EventsIn(r, a)
    ensures SessionAfter(r, b).Some? ==> SessionAfter(r, b).value.assembler == SessionAfter(r, a).value.assembler
  {
    hide FeedBytes, After;
    if FeedBytes(START, b, r.lim).Next? {
      FeedPrefix(a, b, r.lim);
      if SessionAfter(r, b).Some? {
        var x, y := EventsIn(r, a), EventsIn(r, b);
        PrefixMessages(x, y, r.present);
        ReadableRunIsMaximal(Fresh(r.protocol), Messages(x, r.present), Messages(y, r.present));
      }
    }
  }

  // ---------------------------------------------------------------------------------------------
  // One cutting
  // ---------------------------------------------------------------------------------------------

  lemma NotYetCompleted(r: Request, s: Session, read: Bytes, stream: Bytes, p: nat)
    requires SessionAfter(r, read) == Some(s) && !s.assembler.complete
    requires read <= stream && CompletedBy(r, stream, p)
    ensures |read| < p <= |stream|
  {
    hide FeedBytes, After;
    if p <= |read| {
      assert stream[..p] <= read;
      CompletedLeads(r, stream[..p], read);
      assert false;
    }
  }

  /** The chunk that ends at byte `q`, at or behind the completing byte `p`. */
  lemma CompletingChunk(r: Request, s: Session, read: Bytes, chunk: Bytes, stream: Bytes, p: nat)
    requires SessionAfter(r, read) == Some(s) && read + chunk <= stream
    requires CompletedBy(r, stream, p) && p <= |read + chunk|
    ensures var c := Consume(s, chunk, r.lim, r.present);
            && (c.Going? <==> CleanAt(r, stream, p, |read + chunk|))
            && (c.Going? ==> c.session.assembler.complete && Readable(c.session.assembler).Some?
                             && c.session.assembler == SessionAfter(r, stream[..p]).value.assembler)
  {
    hide FeedBytes, After, Consume, TailDiscardable;
    var q := |read + chunk|;
    assert stream[..q] == read + chunk && stream[..p] <= stream[..q];
    ConsumeLeads(r, s, read, chunk);
    CompletedLeads(r, stream[..p], stream[..q]);
  }

  /** A chunk that ends in front of the completing byte is always consumed. */
  lemma EarlierChunk(r: Request, s: Session, read: Bytes, chunk: Bytes, stream: Bytes, p: nat)
    requires SessionAfter(r, read) == Some(s) && read + chunk <= stream
    requires CompletedBy(r, stream, p) && |read + chunk| < p
    ensures var c := Consume(s, chunk, r.lim, r.present);
            c.Going? && SessionAfter(r, read + chunk) == Some(c.session) && !c.session.assembler.complete
  {
    hide FeedBytes, After, Consume, TailDiscardable, SessionAfter;
    var q := |read + chunk|;
    assert stream[..q] == read + chunk && stream[..q] <= stream[..p];
    ConsumeLeads(r, s, read, chunk);
    PrefixLeads(r, stream[..q], stream[..p]);
    assert !Completes(r, stream[..q]);
  }

  lemma {:induction false} LoopStops(r: Request, s: Session, read: Bytes, chunks: seq<Bytes>, p: nat)
    requires SessionAfter(r, read) == Some(s) && !s.assembler.complete
    requires CompletedBy(r, read + Flatten(chunks), p)
    ensures |read| < p
    ensures var stream, stop := read + Flatten(chunks), |read| + StopAt(chunks, p - |read|);
            var answered := ReadAll(s, chunks, r.lim, r.present);
            && (answered.Answered? <==> CleanAt(r, stream, p, stop))
            && (answered.Answered? ==>
                  Readable(SessionAfter(r, stream[..p]).value.assembler) == Some(answered.answer))
    decreases |chunks|
  {
    hide SessionAfter, Consume, CleanAt, CompletedBy;
    var stream := read + Flatten(chunks);
    NotYetCompleted(r, s, read, stream, p);
    var chunk := chunks[0];
    assert stream == (read + chunk) + Flatten(chunks[1..]);
    if p <= |read + chunk| {
      CompletingChunk(r, s, read, chunk, stream, p);
    } else {
      EarlierChunk(r, s, read, chunk, stream, p);
      LoopStops(r, Consume(s, chunk, r.lim, r.present).session, read + chunk, chunks[1..], p);
    }
  }

  lemma NothingRead(r: Request)
    ensures SessionAfter(r, []) == Some(Opening(r.protocol))
  {
  }

  /** One cutting of a stream whose byte `p` completes the answer: it is answered exactly when the
      stream is clean where the first chunk at or behind that byte ends. */
  lemma AnsweredExactlyWhenClean(r: Request, chunks: seq<Bytes>, p: nat)
    requires CompletedBy(r, Flatten(chunks), p)
    ensures p <= StopAt(chunks, p)
    ensures Answering(r, chunks).Answered? <==> CleanAt(r, Flatten(chunks), p, StopAt(chunks, p))
    ensures Answering(r, chunks).Answered? ==>
              Readable(SessionAfter(r, Flatten(chunks)[..p]).value.assembler) == Some(Answering(r, chunks).answer)
  {
    hide SessionAfter, CleanAt, ReadAll;
    NothingRead(r);
    assert [] + Flatten(chunks) == Flatten(chunks);
    LoopStops(r, Opening(r.protocol), [], chunks, p);
  }

  // ---------------------------------------------------------------------------------------------
  // A stream that completes nothing
  // ---------------------------------------------------------------------------------------------

  /** The whole stream leads somewhere and the end of input completes and answers it. */
  predicate AnsweredAtEnd(r: Request, stream: Bytes)
  {
    SessionAfter(r, stream).Some? && AtEnd(SessionAfter(r, stream).value, r.lim, r.present).Answered?
  }

  lemma {:induction false} LoopRunsOut(r: Request, s: Session, read: Bytes, chunks: seq<Bytes>)
    requires SessionAfter(r, read) == Some(s) && NeverCompletes(r, read + Flatten(chunks))
    ensures ReadAll(s, chunks, r.lim, r.present).Answered? <==> AnsweredAtEnd(r, read + Flatten(chunks))
    ensures var after := SessionAfter(r, read + Flatten(chunks));
            after.Some? ==> ReadAll(s, chunks, r.lim, r.present) == AtEnd(after.value, r.lim, r.present)
    decreases |chunks|
  {
    hide SessionAfter, Consume, AtEnd;
    var stream := read + Flatten(chunks);
    if chunks == [] {
      assert stream == read;
    } else {
      var chunk := chunks[0];
      assert stream == (read + chunk) + Flatten(chunks[1..]);
      assert stream[..|read + chunk|] == read + chunk;
      ConsumeLeads(r, s, read, chunk);
      if SessionAfter(r, read + chunk).Some? {
        LoopRunsOut(r, SessionAfter(r, read + chunk).value, read + chunk, chunks[1..]);
      } else if SessionAfter(r, stream).Some? {
        PrefixLeads(r, read + chunk, stream);
      }
    }
  }

  /** Without a completing byte the cutting does not matter at all. */
  lemma NeverCompletedAnswers(r: Request, chunks: seq<Bytes>)
    requires NeverCompletes(r, Flatten(chunks))
    ensures Answering(r, chunks).Answered? <==> AnsweredAtEnd(r, Flatten(chunks))
    ensures var after := SessionAfter(r, Flatten(chunks));
            after.Some? ==> Answering(r, chunks) == AtEnd(after.value, r.lim, r.present)
  {
    hide SessionAfter, NeverCompletes, AnsweredAtEnd, ReadAll;
    NothingRead(r);
    assert [] + Flatten(chunks) == Flatten(chunks);
    LoopRunsOut(r, Opening(r.protocol), [], chunks);
  }

  // ---------------------------------------------------------------------------------------------
  // Every cutting, some cutting
  // ---------------------------------------------------------------------------------------------

  ghost predicate EveryCuttingAnswers(r: Request, stream: Bytes)
  {
    forall chunks | Flatten(chunks) == stream :: Answering(r, chunks).Answered?
  }

  ghost predicate SomeCuttingAnswers(r: Request, stream: Bytes)
  {
    exists chunks :: Flatten(chunks) == stream && Answering(r, chunks).Answered?
  }

  predicate CleanBehind(r: Request, stream: Bytes, p: nat)
    requires p <= |stream|
  {
    forall q | p <= q <= |stream| :: CleanAt(r, stream, p, q)
  }

  predicate CleanSomewhere(r: Request, stream: Bytes, p: nat)
    requires p <= |stream|
  {
    exists q | p <= q <= |stream| :: CleanAt(r, stream, p, q)
  }

  lemma {:induction false} FirstCompletion(r: Request, stream: Bytes, n: nat) returns (p: nat)
    requires n <= |stream| && Completes(r, stream[..n])
    ensures CompletedBy(r, stream, p)
    decreases n
  {
    hide Completes;
    if q: nat :| q < n && Completes(r, stream[..q]) {
      p := FirstCompletion(r, stream, q);
    } else {
      p := n;
    }
  }

  lemma CompletionNeedsAByte(r: Request, stream: Bytes, p: nat)
    requires CompletedBy(r, stream, p)
    ensures 0 < p <= |stream|
  {
    assert stream[..0] == [];
    NothingRead(r);
  }

  lemma CompletedOnce(r: Request, stream: Bytes, p: nat)
    requires CompletedBy(r, stream, p)
    ensures !NeverCompletes(r, stream)
    ensures forall p': nat :: CompletedBy(r, stream, p') ==> p' == p
  {
    hide Completes;
  }

  /** The stream cut once, at `q`: the loop stops there, whatever follows. */
  lemma CutAt(stream: Bytes, p: nat, q: nat) returns (chunks: seq<Bytes>)
    requires 0 < p <= q <= |stream|
    ensures Flatten(chunks) == stream && StopAt(chunks, p) == q
  {
    var late := [stream[q..]];
    chunks := [stream[..q]] + late;
    assert late[1..] == [] && chunks[1..] == late;
    assert Flatten(late) == stream[q..] + [] == stream[q..];
    assert stream[..q] + stream[q..] == stream;
    assert StopAt(late, p - q) == 0;
  }

  lemma CutAnswered(r: Request, stream: Bytes, p: nat, q: nat)
    requires CompletedBy(r, stream, p) && p <= q <= |stream|
    ensures EveryCuttingAnswers(r, stream) ==> CleanAt(r, stream, p, q)
    ensures CleanAt(r, stream, p, q) ==> SomeCuttingAnswers(r, stream)
  {
    hide CompletedBy, CleanAt, Answering, StopAt, Flatten, SessionAfter;
    CompletionNeedsAByte(r, stream, p);
    var chunks := CutAt(stream, p, q);
    AnsweredExactlyWhenClean(r, chunks, p);
  }

  lemma CuttingsOfCompleted(r: Request, stream: Bytes, p: nat)
    requires CompletedBy(r, stream, p)
    ensures p <= |stream|
    ensures EveryCuttingAnswers(r, stream) <==> CleanBehind(r, stream, p)
    ensures SomeCuttingAnswers(r, stream) <==> CleanSomewhere(r, stream, p)
  {
    hide CompletedBy, CleanAt, Answering, StopAt, Flatten, SessionAfter;
    CompletionNeedsAByte(r, stream, p);
    forall chunks | Flatten(chunks) == stream
      ensures p <= StopAt(chunks, p) <= |stream|
      ensures Answering(r, chunks).Answered? <==> CleanAt(r, stream, p, StopAt(chunks, p))
    {
      AnsweredExactlyWhenClean(r, chunks, p);
    }
    forall q | p <= q <= |stream|
      ensures EveryCuttingAnswers(r, stream) ==> CleanAt(r, stream, p, q)
      ensures CleanAt(r, stream, p, q) ==> SomeCuttingAnswers(r, stream)
    {
      CutAnswered(r, stream, p, q);
    }
  }

  lemma CuttingsOfUncompleted(r: Request, stream: Bytes)
    requires NeverCompletes(r, stream)
    ensures EveryCuttingAnswers(r, stream) <==> AnsweredAtEnd(r, stream)
    ensures SomeCuttingAnswers(r, stream) <==> AnsweredAtEnd(r, stream)
  {
    hide NeverCompletes, AnsweredAtEnd, Answering;
    assert [stream][1..] == [];
    assert Flatten([stream]) == stream + [] == stream;
    forall chunks | Flatten(chunks) == stream
      ensures Answering(r, chunks).Answered? <==> AnsweredAtEnd(r, stream)
    {
      NeverCompletedAnswers(r, chunks);
    }
  }

  ghost predicate CompletedAndClean(r: Request, stream: Bytes)
  {
    exists p: nat :: CompletedBy(r, stream, p) && CleanBehind(r, stream, p)
  }

  /** Every cutting of a stream is answered exactly when either no byte completes the answer and the
      end of input does, or the stream is clean at every byte from the completing one on. */
  lemma EveryCuttingAnswered(r: Request, stream: Bytes)
    ensures EveryCuttingAnswers(r, stream)
       <==> (NeverCompletes(r, stream) && AnsweredAtEnd(r, stream)) || CompletedAndClean(r, stream)
  {
    hide CleanBehind, AnsweredAtEnd, EveryCuttingAnswers, CleanSomewhere, Completes;
    if NeverCompletes(r, stream) {
      CuttingsOfUncompleted(r, stream);
    } else {
      var n: nat :| n <= |stream| && Completes(r, stream[..n]);
      var p := FirstCompletion(r, stream, n);
      CuttingsOfCompleted(r, stream, p);
      CompletedOnce(r, stream, p);
    }
  }

  /** The cutting decides whether the stream is answered, one cutting being answered and another one
      refused, exactly when the stream is clean at one byte from the completing one on but not at all. */
  lemma CuttingDecidesExactly(r: Request, stream: Bytes)
    ensures SomeCuttingAnswers(r, stream) && !EveryCuttingAnswers(r, stream)
       <==> exists p: nat :: CompletedBy(r, stream, p) && CleanSomewhere(r, stream, p) && !CleanBehind(r, stream, p)
  {
    hide CleanBehind, AnsweredAtEnd, EveryCuttingAnswers, SomeCuttingAnswers, CleanSomewhere, Completes;
    if NeverCompletes(r, stream) {
      CuttingsOfUncompleted(r, stream);
    } else {
      var n: nat :| n <= |stream| && Completes(r, stream[..n]);
      var p := FirstCompletion(r, stream, n);
      CuttingsOfCompleted(r, stream, p);
      CompletedOnce(r, stream, p);
    }
  }
}
