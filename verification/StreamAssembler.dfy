/**
 The stream assembler of `okxquant_backend/llm_stream.py`: one object that turns the events of one of
 three protocols into one final answer, never a partial one.
 */
module StreamAssembler {
  import opened Options
  import opened Json
  import opened StreamMessages
  import Chat = ChatCompletions
  import Responses = ResponsesApi
  import Claude = ClaudeMessages
  import Grammar = ClaudeGrammar

  datatype Protocol = OpenAiChat | OpenAiResponses | ClaudeProtocol

  datatype Answer =
    | ChatResult(chat: Chat.ChatAnswer)
    | ResponsesResult(responses: Responses.ResponsesAnswer)
    | ClaudeResult(claude: Claude.ClaudeAnswer)

  datatype Assembler = Assembler(
    protocol: Protocol, complete: bool, failed: bool, result: Option<Answer>,
    chat: Chat.ChatState, responses: Responses.ResponsesState, claude: Claude.ClaudeState)

  datatype Outcome = Accepted | Rejected(fault: Fault) | TypeError

  function Fresh(protocol: Protocol): Assembler
  {
    Assembler(protocol, false, false, None, Chat.CHAT_START, Responses.RESPONSES_START, Claude.CLAUDE_START)
  }

  predicate Sound(a: Assembler)
  {
    && Claude.Consistent(a.claude)
    && (a.complete <==> a.result.Some?)
    && (a.failed ==> !a.complete)
    && (!a.failed ==> match a.protocol
                      case OpenAiChat => a.complete <==> a.chat.done
                      case OpenAiResponses => true
                      case ClaudeProtocol => a.complete <==> a.claude.messageStop)
  }

  function Named(m: Message): Message
  {
    if m.name == "" then m.(name := "message") else m
  }

  /** A protocol error latches: the assembler is failed for good and its result is gone. */
  function Latched(a: Assembler): Assembler
  {
    a.(failed := true, complete := false, result := None)
  }

  function AfterChat(a: Assembler, m: Message): (r: (Assembler, Outcome))
    requires Sound(a) && !a.failed && a.protocol == OpenAiChat
    ensures Sound(r.0)
  {
    match Chat.ChatFeed(a.chat, m)
    case Continue(s) => (a.(chat := s), Accepted)
    case Complete(s, answer) => (a.(chat := s, complete := true, result := Some(ChatResult(answer))), Accepted)
    case Refused(f) => (Latched(a), Rejected(f))
    case Raised => (a, TypeError)
  }

  function AfterResponses(a: Assembler, m: Message): (r: (Assembler, Outcome))
    requires Sound(a) && !a.failed && a.protocol == OpenAiResponses
    ensures Sound(r.0)
  {
    if a.complete then (Latched(a), Rejected(DataAfterTerminal))
    else
      match Responses.ResponsesFeed(a.responses, m)
      case Continue(s) => (a.(responses := s), Accepted)
      case Complete(s, answer) =>
        (a.(responses := s, complete := true, result := Some(ResponsesResult(answer))), Accepted)
      case Refused(f) => (Latched(a), Rejected(f))
      case Raised => (a, TypeError)
  }

  function AfterClaude(a: Assembler, m: Message): (r: (Assembler, Outcome))
    requires Sound(a) && !a.failed && a.protocol == ClaudeProtocol
    ensures Sound(r.0)
  {
    if a.complete then (Latched(a), Rejected(DataAfterTerminal))
    else
      match Claude.ClaudeFeed(a.claude, m)
      case Continue(s) => (a.(claude := s), Accepted)
      case Complete(s, answer) =>
        (a.(claude := s, complete := true, result := Some(ClaudeResult(answer))), Accepted)
      case Refused(f) => (Latched(a), Rejected(f))
      case Raised => (a, TypeError)
  }

  /** One event: the assembler after it, and what the caller sees. */
  function After(a: Assembler, m: Message): (r: (Assembler, Outcome))
    requires Sound(a)
    ensures Sound(r.0) && r.0.protocol == a.protocol
  {
    if a.failed then (a, Rejected(StreamFailed))
    else
      match a.protocol
      case OpenAiChat => AfterChat(a, Named(m))
      case OpenAiResponses => AfterResponses(a, Named(m))
      case ClaudeProtocol => AfterClaude(a, Named(m))
  }

  /** The answer that can be read, if any. */
  function Readable(a: Assembler): Option<Answer>
  {
    if a.failed || !a.complete then None else a.result
  }

  /** The assembler after events that were all accepted. */
  function AfterAll(a: Assembler, ms: seq<Message>): (r: Option<Assembler>)
    requires Sound(a)
    ensures r.Some? ==> Sound(r.value) && r.value.protocol == a.protocol
    decreases |ms|
  {
    if ms == [] then Some(a)
    else
      var (next, outcome) := After(a, ms[0]);
      if outcome.Accepted? then AfterAll(next, ms[1..]) else None
  }

  /** The assembler after any events at all, the errors of the rejected ones caught. */
  function AfterAny(a: Assembler, ms: seq<Message>): (r: Assembler)
    requires Sound(a)
    ensures Sound(r)
    decreases |ms|
  {
    if ms == [] then a else AfterAny(After(a, ms[0]).0, ms[1..])
  }

  // ---------------------------------------------------------------------------------------------
  // A readable answer is final, and anything after it revokes it
  // ---------------------------------------------------------------------------------------------

  /** No event is accepted after a complete answer, in any protocol. */
  lemma NothingAfterTerminal(a: Assembler, m: Message)
    requires Sound(a) && Readable(a).Some?
    ensures After(a, m).1.Rejected? && After(a, m).0.failed && Readable(After(a, m).0) == None
  {
    if a.protocol == OpenAiChat { Chat.DoneRefuses(a.chat, Named(m)); }
  }

  lemma FailedHasNoAnswer(a: Assembler)
    requires Sound(a) && a.failed
    ensures !a.complete && a.result == None
  {
  }

  lemma CompleteRunIsOver(a: Assembler, ms: seq<Message>)
    requires Sound(a) && Readable(a).Some? && AfterAll(a, ms).Some?
    ensures ms == []
  {
    hide After;
    forall m ensures After(a, m).1.Rejected? { NothingAfterTerminal(a, m); }
  }

  lemma {:induction false} FailedForGood(a: Assembler, ms: seq<Message>)
    requires Sound(a) && a.failed
    ensures AfterAny(a, ms).failed && Readable(AfterAny(a, ms)) == None
    decreases |ms|
  {
    if ms != [] { FailedForGood(After(a, ms[0]).0, ms[1..]); }
  }

  /** One event after the answer was complete, and it can never be read again. */
  lemma LateEventRevokesForGood(a: Assembler, m: Message, more: seq<Message>)
    requires Sound(a) && Readable(a).Some?
    ensures Readable(AfterAny(a, [m] + more)) == None
  {
    NothingAfterTerminal(a, m);
    FailedForGood(After(a, m).0, more);
    assert ([m] + more)[1..] == more;
  }

  lemma {:induction false} AfterAllConcat(a: Assembler, x: seq<Message>, y: seq<Message>)
    requires Sound(a)
    ensures AfterAll(a, x + y) == match AfterAll(a, x) case None => None case Some(b) => AfterAll(b, y)
    decreases |x|
  {
    hide After;
    if x == [] {
      assert x + y == y;
    } else {
      assert (x + y)[1..] == x[1..] + y;
      if After(a, x[0]).1.Accepted? { AfterAllConcat(After(a, x[0]).0, x[1..], y); }
    }
  }

  /** If both a run and a longer run are accepted and the shorter one is readable, they are equal. */
  lemma ReadableRunIsMaximal(a: Assembler, x: seq<Message>, y: seq<Message>)
    requires Sound(a) && x <= y
    requires AfterAll(a, x).Some? && AfterAll(a, y).Some? && Readable(AfterAll(a, x).value).Some?
    ensures x == y
  {
    hide After;
    var rest := y[|x|..];
    assert y == x + rest;
    AfterAllConcat(a, x, rest);
    CompleteRunIsOver(AfterAll(a, x).value, rest);
  }

  // ---------------------------------------------------------------------------------------------
  // What a readable answer is made of
  // ---------------------------------------------------------------------------------------------

  function AllNamed(ms: seq<Message>): (r: seq<Message>)
    ensures |r| == |ms|
    ensures forall i | 0 <= i < |ms| :: r[i] == Named(ms[i])
    decreases |ms|
  {
    if ms == [] then [] else [Named(ms[0])] + AllNamed(ms[1..])
  }

  lemma {:induction false} ChatRuns(a: Assembler, ms: seq<Message>)
    requires Sound(a) && a.protocol == OpenAiChat && !a.failed && AfterAll(a, ms).Some?
    requires a.complete ==> a.result == Some(ChatResult(Chat.AnswerOf(a.chat)))
    ensures var b := AfterAll(a, ms).value;
            && Chat.Run(a.chat, AllNamed(ms)) == Some(b.chat) && !b.failed
            && (b.complete ==> b.result == Some(ChatResult(Chat.AnswerOf(b.chat))))
    decreases |ms|
  {
    hide Chat.ChatFeed;
    if ms != [] {
      assert AllNamed(ms)[1..] == AllNamed(ms[1..]);
      Chat.FeedCollects(a.chat, Named(ms[0]));
      ChatRuns(After(a, ms[0]).0, ms[1..]);
    }
  }

  lemma {:induction false} ClaudeRuns(a: Assembler, ms: seq<Message>)
    requires Sound(a) && a.protocol == ClaudeProtocol && !a.failed && AfterAll(a, ms).Some?
    requires a.complete ==> a.result == Some(ClaudeResult(ClaudeAnswerOf(a.claude)))
    ensures var b := AfterAll(a, ms).value;
            && Grammar.Run(a.claude, AllNamed(ms)) == Some(b.claude) && !b.failed
            && (b.complete ==> b.result == Some(ClaudeResult(ClaudeAnswerOf(b.claude))))
    decreases |ms|
  {
    hide Claude.ClaudeFeed;
    if ms != [] {
      assert AllNamed(ms)[1..] == AllNamed(ms[1..]);
      ClaudeAnswers(a.claude, Named(ms[0]));
      ClaudeRuns(After(a, ms[0]).0, ms[1..]);
    }
  }

  function ClaudeAnswerOf(c: Claude.ClaudeState): Claude.ClaudeAnswer
  {
    Claude.ClaudeAnswer(c.meta, if c.stop.Some? then c.stop.value else "", c.blocks, c.usage)
  }

  lemma ClaudeAnswers(c: Claude.ClaudeState, m: Message)
    requires Claude.Consistent(c)
    ensures Claude.ClaudeFeed(c, m).Complete? ==>
              Claude.ClaudeFeed(c, m).answer == ClaudeAnswerOf(Claude.ClaudeFeed(c, m).state)
  {
    hide Claude.OnBlockDelta, Claude.OnBlockStart, Claude.OnMessageDelta, Claude.OnMessageStart, Claude.OnBlockStop;
    OthersDoNotComplete();
  }

  lemma OthersDoNotComplete()
    ensures forall c, obj :: !Claude.OnBlockDelta(c, obj).Complete? && !Claude.OnBlockStart(c, obj).Complete?
    ensures forall c, obj :: !Claude.OnMessageDelta(c, obj).Complete? && !Claude.OnMessageStart(c, obj).Complete?
    ensures forall c, obj :: !Claude.OnBlockStop(c, obj).Complete?
  {
  }

  lemma {:induction false} ResponsesRuns(a: Assembler, ms: seq<Message>)
    requires Sound(a) && a.protocol == OpenAiResponses && !a.failed && !a.complete
    requires AfterAll(a, ms).Some? && AfterAll(a, ms).value.complete
    ensures ms != []
    ensures var front, last := AllNamed(ms[..|ms| - 1]), Named(ms[|ms| - 1]);
            && Responses.Run(a.responses, front).Some?
            && var r := Responses.ResponsesFeed(Responses.Run(a.responses, front).value, last);
               r.Complete? && AfterAll(a, ms).value.result == Some(ResponsesResult(r.answer))
    decreases |ms|
  {
    hide Responses.ResponsesFeed;
    var (next, outcome) := After(a, ms[0]);
    var rest := ms[1..];
    if next.complete {
      CompleteRunIsOver(next, rest);
      assert ms == [ms[0]] + rest;
    } else {
      ResponsesRuns(next, rest);
      assert ms[..|ms| - 1][1..] == rest[..|rest| - 1];
      assert ms[|ms| - 1] == rest[|rest| - 1];
    }
  }

  /** What it means for `answer` to be the whole answer of the events `ms`, protocol by protocol. */
  ghost predicate WholeAnswer(protocol: Protocol, ms: seq<Message>, answer: Answer)
  {
    match protocol
    case OpenAiChat => answer.ChatResult? && WholeChat(ms, answer.chat)
    case OpenAiResponses => answer.ResponsesResult? && WholeResponse(ms, answer.responses)
    case ClaudeProtocol => answer.ClaudeResult? && WholeMessage(ms, answer.claude)
  }

  ghost predicate WholeChat(ms: seq<Message>, answer: Chat.ChatAnswer)
  {
    && (exists k: nat :: Chat.Finished(ms, k))
    && answer.content == Concat(Chat.Contents(ms))
    && answer.reasoning == (if Chat.Reasonings(ms) == [] then None else Some(Concat(Chat.Reasonings(ms))))
    && (forall key | key == "id" || key == "model" :: IdentityKept(ms, answer.meta, key))
  }

  /** Every event that carried the key carried what the answer has under it. */
  ghost predicate IdentityKept(ms: seq<Message>, meta: Fields, key: string)
  {
    forall i | 0 <= i < |ms| && ms[i].body.Object? && key in ms[i].body.fields ::
      key in meta && meta[key] == ms[i].body.fields[key]
  }

  ghost predicate WholeResponse(ms: seq<Message>, answer: Responses.ResponsesAnswer)
  {
    && ms != [] && ms[|ms| - 1].body.Object? && "output_text" in answer.canonical
    && var deltas, response := Responses.Deltas(ms[..|ms| - 1]), Get(ms[|ms| - 1].body.fields, "response");
       && Responses.TypeOf(ms[|ms| - 1]) == Str("response.completed")
       && response.Obj? && Get(response.fields, "status") == Str("completed") && Get(response.fields, "output").Arr?
       && answer.canonical["output_text"] == Str(Concat(Responses.OutputTexts(Get(response.fields, "output").items)))
       && (deltas != [] ==> answer.canonical["output_text"] == Str(Concat(deltas)))
       && (forall key | key in answer.canonical && key != "output_text" ::
             key in Responses.KEPT && key in response.fields && answer.canonical[key] == response.fields[key])
  }

  ghost predicate WholeMessage(ms: seq<Message>, answer: Claude.ClaudeAnswer)
  {
    exists s :: Grammar.IsMessage(ms, s) && answer.content == Grammar.Meanings(s.blocks) && answer.stop == s.stop
      && Grammar.Keeps(answer.meta, s.message) && answer.usage == Grammar.UsageIn(s.message) + s.usage
  }

  lemma WholeChatRun(ms: seq<Message>)
    requires AfterAll(Fresh(OpenAiChat), ms).Some? && AfterAll(Fresh(OpenAiChat), ms).value.complete
    ensures var b := AfterAll(Fresh(OpenAiChat), ms).value;
            && b.result == Some(ChatResult(Chat.AnswerOf(b.chat)))
            && WholeChat(AllNamed(ms), Chat.AnswerOf(b.chat))
  {
    hide After, Chat.Finished, Chat.Run, AfterAll;
    ChatRuns(Fresh(OpenAiChat), ms);
    var k := Chat.ChatAnswerIsWhole(AllNamed(ms));
    forall key | key == "id" || key == "model"
      ensures IdentityKept(AllNamed(ms), Chat.Run(Chat.CHAT_START, AllNamed(ms)).value.meta, key)
    {
      Chat.IdentityNeverChanges(Chat.CHAT_START, AllNamed(ms), key);
    }
  }

  lemma WholeResponsesRun(ms: seq<Message>)
    requires AfterAll(Fresh(OpenAiResponses), ms).Some? && AfterAll(Fresh(OpenAiResponses), ms).value.complete
    ensures var b := AfterAll(Fresh(OpenAiResponses), ms).value;
            && b.result.Some? && b.result.value.ResponsesResult?
            && WholeResponse(AllNamed(ms), b.result.value.responses)
  {
    hide After, Responses.Run, Responses.ResponsesFeed, AfterAll;
    ResponsesRuns(Fresh(OpenAiResponses), ms);
    var front := AllNamed(ms[..|ms| - 1]);
    Responses.ResponsesAnswerIsWhole(front, Named(ms[|ms| - 1]));
    assert AllNamed(ms)[..|ms| - 1] == front;
  }

  lemma WholeClaudeRun(ms: seq<Message>)
    requires AfterAll(Fresh(ClaudeProtocol), ms).Some? && AfterAll(Fresh(ClaudeProtocol), ms).value.complete
    ensures var b := AfterAll(Fresh(ClaudeProtocol), ms).value;
            && b.result == Some(ClaudeResult(ClaudeAnswerOf(b.claude)))
            && WholeMessage(AllNamed(ms), ClaudeAnswerOf(b.claude))
  {
    hide After, Grammar.IsMessage, Grammar.Run, AfterAll;
    ClaudeRuns(Fresh(ClaudeProtocol), ms);
    Grammar.ClaudeCompletesExactlyOnMessages(AllNamed(ms));
    var s :| Grammar.IsMessage(AllNamed(ms), s);
  }

  /** An answer that can be read is the whole answer of everything that was fed. */
  lemma ReadableAnswerIsWhole(protocol: Protocol, ms: seq<Message>)
    requires AfterAll(Fresh(protocol), ms).Some? && Readable(AfterAll(Fresh(protocol), ms).value).Some?
    ensures WholeAnswer(protocol, AllNamed(ms), Readable(AfterAll(Fresh(protocol), ms).value).value)
  {
    hide AfterAll, WholeChat, WholeResponse, WholeMessage;
    match protocol {
      case OpenAiChat => WholeChatRun(ms);
      case OpenAiResponses => WholeResponsesRun(ms);
      case ClaudeProtocol => WholeClaudeRun(ms);
    }
  }

  // ---------------------------------------------------------------------------------------------
  // The object
  // ---------------------------------------------------------------------------------------------

  ghost predicate NumberedFromZero(keys: set<int>)
  {
    forall i :: i in keys <==> 0 <= i < |keys|
  }

  /** `[blocks[i] for i in sorted(blocks)]` */
  ghost function Listed(blocks: map<int, Claude.Block>): (r: seq<Claude.Block>)
    requires NumberedFromZero(blocks.Keys)
    ensures |r| == |blocks|
    ensures forall i | 0 <= i < |r| :: i in blocks && r[i] == blocks[i]
  {
    assert |blocks.Keys| == |blocks|;
    seq(|blocks|, i requires 0 <= i < |blocks| => assert i in blocks.Keys; blocks[i])
  }

  class StreamAssembler {
    const protocol: Protocol
    var isComplete: bool
    var isFailed: bool
    var answer: Option<Answer>
    var chatText: seq<string>
    var chatReasoning: seq<string>
    var chatMeta: Fields
    var chatUsage: Option<Fields>
    var chatFinish: Option<string>
    var chatDone: bool
    var respText: seq<string>
    var respReasoning: seq<string>
    var claudeBlocks: map<int, Claude.Block>
    var claudeClosed: set<int>
    var claudeUsage: Fields
    var claudeMeta: Fields
    var claudeStop: Option<string>
    var claudeStarted: bool
    var claudeMessageDelta: bool
    var claudeMessageStop: bool

    ghost function ChatView(): Chat.ChatState
      reads this
    {
      Chat.ChatState(chatText, chatReasoning, chatMeta, chatUsage, chatFinish, chatDone)
    }

    ghost function ResponsesView(): Responses.ResponsesState
      reads this
    {
      Responses.ResponsesState(respText, respReasoning)
    }

    /** The blocks are keyed 0, 1, 2, ... and the closed ones come first. */
    ghost predicate Numbered()
      reads this
    {
      && NumberedFromZero(claudeBlocks.Keys)
      && NumberedFromZero(claudeClosed)
    }

    ghost function BlockSeq(): seq<Claude.Block>
      reads this
      requires Numbered()
    {
      Listed(claudeBlocks)
    }

    ghost function ClaudeView(): Claude.ClaudeState
      reads this
      requires Numbered()
    {
      Claude.ClaudeState(BlockSeq(), |claudeClosed|, claudeUsage, claudeMeta, claudeStop,
                         claudeStarted, claudeMessageDelta, claudeMessageStop)
    }

    ghost function State(): Assembler
      reads this
      requires Numbered()
    {
      Assembler(protocol, isComplete, isFailed, answer, ChatView(), ResponsesView(), ClaudeView())
    }

    ghost predicate Valid()
      reads this
    {
      Numbered() && Sound(State())
    }

    constructor (protocol: Protocol)
      ensures Valid() && State() == Fresh(protocol)
    {
      this.protocol := protocol;
      isComplete, isFailed, answer := false, false, None;
      chatText, chatReasoning, chatMeta, chatUsage, chatFinish, chatDone := [], [], map[], None, None, false;
      respText, respReasoning := [], [];
      claudeBlocks, claudeClosed, claudeUsage, claudeMeta, claudeStop := map[], {}, map[], map[], None;
      claudeStarted, claudeMessageDelta, claudeMessageStop := false, false, false;
    }

    /** What a caller relies on after an event: the outcome, and the whole state unless the event was
        rejected; a rejection latches the failure and clears the answer. */
    ghost predicate Did(step: (Assembler, Outcome), o: Outcome)
      reads this
    {
      && Valid() && o == step.1
      && (!o.Rejected? ==> State() == step.0)
      && (o.Rejected? ==> isFailed && !isComplete && answer == None)
    }

    method Feed(m: Message) returns (o: Outcome)
      requires Valid()
      modifies this
      ensures Did(After(old(State()), m), o)
    {
      hide AfterChat, AfterResponses, AfterClaude, Sound, Named;
      if isFailed {
        FailedHasNoAnswer(State());
        return Rejected(StreamFailed);
      }
      var named := Named(m);
      match protocol {
        case OpenAiChat => o := Chatting(named);
        case OpenAiResponses => o := Responding(named);
        case ClaudeProtocol => o := Messaging(named);
      }
      if o.Rejected? {
        isFailed, isComplete, answer := true, false, None;
      }
    }

    /** An event of one protocol, before the failure is latched. */
    ghost predicate Took(step: (Assembler, Outcome), o: Outcome)
      reads this
    {
      && Numbered() && o == step.1 && !isFailed
      && (!o.Rejected? ==> State() == step.0)
      && (o.Rejected? ==> Sound(Latched(State())))
    }

    method Chatting(m: Message) returns (o: Outcome)
      requires Valid() && !isFailed && protocol == OpenAiChat
      modifies this
      ensures Took(AfterChat(old(State()), m), o)
    {
      hide Chat.ChatFeed;
      o := FeedChat(m);
    }

    method Responding(m: Message) returns (o: Outcome)
      requires Valid() && !isFailed && protocol == OpenAiResponses
      modifies this
      ensures Took(AfterResponses(old(State()), m), o)
    {
      hide Responses.ResponsesFeed;
      o := FeedResponses(m);
    }

    method Messaging(m: Message) returns (o: Outcome)
      requires Valid() && !isFailed && protocol == ClaudeProtocol
      modifies this
      ensures Took(AfterClaude(old(State()), m), o)
    {
      hide Claude.ClaudeFeed, Claude.Consistent;
      o := FeedClaude(m);
    }

    /** The answer, or why there is none. */
    method Result() returns (r: Option<Answer>, fault: Fault)
      requires Valid()
      ensures r == Readable(State())
      ensures r == None ==> fault == if isFailed then StreamFailed else TruncatedStream
    {
      if isFailed {
        return None, StreamFailed;
      }
      if !isComplete {
        return None, TruncatedStream;
      }
      return answer, TruncatedStream;
    }

    method FeedChat(m: Message) returns (o: Outcome)
      modifies this`chatText, this`chatReasoning, this`chatMeta, this`chatUsage, this`chatFinish, this`chatDone,
               this`isComplete, this`answer
      ensures match Chat.ChatFeed(old(ChatView()), m)
              case Continue(s) => o == Accepted && ChatView() == s && isComplete == old(isComplete) && answer == old(answer)
              case Complete(s, a) => o == Accepted && ChatView() == s && isComplete && answer == Some(ChatResult(a))
              case Refused(f) => o == Rejected(f)
              case Raised => o == TypeError && ChatView() == old(ChatView())
                             && isComplete == old(isComplete) && answer == old(answer)
    {
      hide Chat.OnObject;
      if m.name == "error" || m.name == "response.error" {
        return Rejected(ProviderError);
      }
      if m.body.Done? {
        if chatDone || chatFinish != Some("stop") {
          return Rejected(InvalidDone);
        }
        chatDone := true;
        var reasoning := None;
        if chatReasoning != [] {
          reasoning := Some(Concat(chatReasoning));
        }
        isComplete := true;
        answer := Some(ChatResult(Chat.ChatAnswer(chatMeta, Concat(chatText), reasoning, chatUsage)));
        return Accepted;
      }
      if chatDone {
        return Rejected(DataAfterTerminal);
      }
      if !m.body.Object? {
        return Rejected(MalformedJson);
      }
      o := FeedChatObject(m.body.fields);
    }

    method FeedChatObject(obj: Fields) returns (o: Outcome)
      modifies this`chatText, this`chatReasoning, this`chatMeta, this`chatUsage, this`chatFinish
      ensures match Chat.OnObject(old(ChatView()), obj)
              case Continue(s) => o == Accepted && ChatView() == s
              case Complete(_, _) => false
              case Refused(f) => o == Rejected(f)
              case Raised => o == TypeError && ChatView() == old(ChatView())
    {
      hide Chat.OnChoice, Chat.ScreenEvent, Chat.ScreenIdentity, Chat.Learn, Chat.LearnRest, Chat.ChoiceOf;
      Chat.ChoiceKeepsMeta();
      var screen := Chat.ScreenEvent(obj);
      if screen.Error? {
        return TypeError;
      }
      if screen.Bad? {
        return Rejected(screen.fault);
      }
      var id := Chat.ScreenIdentity(chatMeta, obj, "id");
      if id.Bad? {
        return Rejected(id.fault);
      }
      chatMeta := Chat.Learn(chatMeta, obj, "id");
      var model := Chat.ScreenIdentity(chatMeta, obj, "model");
      if model.Bad? {
        return Rejected(model.fault);
      }
      chatMeta := Chat.Learn(chatMeta, obj, "model");
      chatMeta := Chat.LearnRest(chatMeta, obj);
      var usage := Get(obj, "usage");
      if usage != Null {
        if !usage.Obj? {
          return Rejected(MalformedUsage);
        }
        chatUsage := Some(usage.fields);
      }
      var choices := Get(obj, "choices");
      if chatFinish.Some? {
        if choices == Arr([]) && usage.Obj? {
          return Accepted;
        }
        return Rejected(DataAfterFinish);
      }
      if choices == Null || (choices == Arr([]) && usage != Null) {
        return Accepted;
      }
      var choice := Chat.ChoiceOf(choices);
      if choice == None {
        return Rejected(UnsupportedChoices);
      }
      o := FeedChatChoice(choice.value);
    }

    method FeedChatChoice(choice: Fields) returns (o: Outcome)
      modifies this`chatText, this`chatReasoning, this`chatFinish
      ensures match Chat.OnChoice(old(ChatView()), choice)
              case Continue(s) => o == Accepted && ChatView() == s
              case Complete(_, _) => false
              case Refused(f) => o == Rejected(f)
              case Raised => false
    {
      var delta := GetOr(choice, "delta", Obj(map[]));
      if !delta.Obj? {
        return Rejected(MalformedDelta);
      }
      var screen := Chat.ScreenDelta(delta.fields);
      if screen != Fine {
        return Rejected(screen.fault);
      }
      var content := Get(delta.fields, "content");
      if content.Str? {
        chatText := chatText + [content.s];
      }
      var reasoning := Chat.Reasoning(delta.fields);
      if reasoning.Str? {
        chatReasoning := chatReasoning + [reasoning.s];
      }
      var finish := Get(choice, "finish_reason");
      if finish != Null {
        if finish != Str("stop") || chatFinish.Some? {
          return Rejected(UnsupportedFinish);
        }
        chatFinish := Some("stop");
      }
      return Accepted;
    }

    method FeedResponses(m: Message) returns (o: Outcome)
      modifies this`respText, this`respReasoning, this`isComplete, this`answer
      ensures old(isComplete) ==> o == Rejected(DataAfterTerminal)
      ensures !old(isComplete) ==>
              match Responses.ResponsesFeed(old(ResponsesView()), m)
              case Continue(s) => o == Accepted && ResponsesView() == s && !isComplete && answer == old(answer)
              case Complete(s, a) => o == Accepted && ResponsesView() == s && isComplete && answer == Some(ResponsesResult(a))
              case Refused(f) => o == Rejected(f)
              case Raised => o == TypeError && ResponsesView() == old(ResponsesView())
                             && !isComplete && answer == old(answer)
    {
      hide Responses.ScreenType, Responses.OnTyped;
      if isComplete {
        return Rejected(DataAfterTerminal);
      }
      var named := Responses.ScreenType(Str(m.name));
      if named.Bad? {
        return Rejected(named.fault);
      }
      if !m.body.Object? {
        return Rejected(MalformedJson);
      }
      var obj := m.body.fields;
      if Truthy(Get(obj, "error")) {
        return Rejected(ProviderError);
      }
      var typ := GetOr(obj, "type", Str(m.name));
      var screen := Responses.ScreenType(typ);
      if screen.Bad? {
        return Rejected(screen.fault);
      }
      ScreenedTypes(typ);
      o := FeedTyped(typ.s, obj);
    }

    lemma ScreenedTypes(typ: Json)
      ensures !Responses.ScreenType(typ).Bad? ==> typ.Str?
    {
    }

    method FeedTyped(typ: string, obj: Fields) returns (o: Outcome)
      requires !isComplete
      modifies this`respText, this`respReasoning, this`isComplete, this`answer
      ensures match Responses.OnTyped(old(ResponsesView()), typ, obj)
              case Continue(s) => o == Accepted && ResponsesView() == s && !isComplete && answer == old(answer)
              case Complete(s, a) => o == Accepted && ResponsesView() == s && isComplete && answer == Some(ResponsesResult(a))
              case Refused(f) => o == Rejected(f)
              case Raised => o == TypeError && ResponsesView() == old(ResponsesView())
                             && !isComplete && answer == old(answer)
    {
      hide Responses.OnCompleted, Responses.ScreenItem;
      if typ == "response.output_text.delta" || typ == "output_text.delta" {
        var delta := Get(obj, "delta");
        if !delta.Str? {
          return Rejected(MalformedDelta);
        }
        respText := respText + [delta.s];
        return Accepted;
      }
      if typ == "response.reasoning_text.delta" || typ == "response.reasoning_summary_text.delta" {
        var delta := Get(obj, "delta");
        if !delta.Str? {
          return Rejected(MalformedDelta);
        }
        respReasoning := respReasoning + [delta.s];
        return Accepted;
      }
      if typ in {"response.output_item.added", "response.output_item.done",
                 "response.content_part.added", "response.content_part.done"} {
        var screen := Responses.ScreenItem(typ, obj);
        return match screen case Fine => Accepted case Bad(f) => Rejected(f) case Error => TypeError;
      }
      if typ == "response.completed" {
        o := CompleteResponse(obj);
        return;
      }
      return Accepted;
    }

    method CompleteResponse(obj: Fields) returns (o: Outcome)
      modifies this`isComplete, this`answer
      ensures match Responses.OnCompleted(ResponsesView(), obj)
              case Continue(_) => false
              case Complete(s, a) => o == Accepted && ResponsesView() == s && isComplete && answer == Some(ResponsesResult(a))
              case Refused(f) => o == Rejected(f)
              case Raised => o == TypeError && isComplete == old(isComplete) && answer == old(answer)
    {
      var response := Get(obj, "response");
      if !response.Obj? || Get(response.fields, "status") != Str("completed")
         || Truthy(Get(response.fields, "error")) || Truthy(Get(response.fields, "incomplete_details")) {
        return Rejected(IncompleteResponse);
      }
      var output := Get(response.fields, "output");
      if !output.Arr? {
        return Rejected(MalformedResponse);
      }
      var gathered := GatherOutput(output.items);
      if gathered.Spoiled? {
        return if gathered.verdict.Bad? then Rejected(gathered.verdict.fault) else TypeError;
      }
      var finalText, finalReasoning := gathered.text, gathered.reasoning;
      if finalText == [] {
        return Rejected(MissingOutputText);
      }
      var joined := Concat(finalText);
      if respText != [] && joined != Concat(respText) {
        return Rejected(DeltaMismatch);
      }
      if "output_text" in response.fields && response.fields["output_text"] != Str(joined) {
        return Rejected(DeltaMismatch);
      }
      if respReasoning != [] && finalReasoning != [] && Concat(respReasoning) != Concat(finalReasoning) {
        return Rejected(DeltaMismatch);
      }
      isComplete := true;
      answer := Some(ResponsesResult(Responses.ResponsesAnswer(
        Responses.Canonical(response.fields)["output_text" := Str(joined)])));
      return Accepted;
    }

    method GatherOutput(output: seq<Json>) returns (g: Responses.Gathered)
      ensures g == Responses.Gather(output)
    {
      hide Responses.GatherItem;
      var finalText, finalReasoning: seq<string> := [], [];
      assert output[0..] == output;
      for i := 0 to |output|
        invariant Responses.Gather(output)
               == match Responses.Gather(output[i..])
                  case Spoiled(v) => Responses.Spoiled(v)
                  case Gathered(t, r) => Responses.Gathered(finalText + t, finalReasoning + r)
      {
        assert output[i..][1..] == output[i + 1..];
        var gathered := Responses.GatherItem(output[i]);
        if gathered.Spoiled? {
          return gathered;
        }
        ghost var rest := Responses.Gather(output[i + 1..]);
        if rest.Gathered? {
          assert finalText + (gathered.text + rest.text) == finalText + gathered.text + rest.text;
          assert finalReasoning + (gathered.reasoning + rest.reasoning) == finalReasoning + gathered.reasoning + rest.reasoning;
        }
        finalText, finalReasoning := finalText + gathered.text, finalReasoning + gathered.reasoning;
      }
      assert output[|output|..] == [];
      assert finalText + [] == finalText && finalReasoning + [] == finalReasoning;
      return Responses.Gathered(finalText, finalReasoning);
    }

    method FeedClaude(m: Message) returns (o: Outcome)
      requires Numbered() && Claude.Consistent(ClaudeView())
      modifies this`claudeBlocks, this`claudeClosed, this`claudeUsage, this`claudeMeta, this`claudeStop,
               this`claudeStarted, this`claudeMessageDelta, this`claudeMessageStop, this`isComplete, this`answer
      ensures Numbered() && Claude.Consistent(ClaudeView())
      ensures old(isComplete) ==> o == Rejected(DataAfterTerminal)
      ensures !old(isComplete) ==>
              match Claude.ClaudeFeed(old(ClaudeView()), m)
              case Continue(s) => o == Accepted && ClaudeView() == s && !isComplete && answer == old(answer)
              case Complete(s, a) => o == Accepted && ClaudeView() == s && isComplete && answer == Some(ClaudeResult(a))
              case Refused(f) => o == Rejected(f)
              case Raised => o == TypeError && ClaudeView() == old(ClaudeView())
                             && !isComplete && answer == old(answer)
    {
      hide Claude.OnMessageStart, Claude.OnBlockStart, Claude.OnBlockDelta, Claude.OnBlockStop,
           Claude.OnMessageDelta, Claude.OnMessageStop, Claude.Consistent;
      if isComplete {
        return Rejected(DataAfterTerminal);
      }
      if m.name == "ping" {
        return Accepted;
      }
      if m.name == "error" {
        return Rejected(ProviderError);
      }
      if !m.body.Object? {
        return Rejected(MalformedJson);
      }
      var obj := m.body.fields;
      var typ := GetOr(obj, "type", Str(m.name));
      if typ == Str("ping") {
        return Accepted;
      }
      if typ == Str("error") {
        return Rejected(ProviderError);
      }
      if typ != Str("message_start") && !claudeStarted {
        return Rejected(MissingMessageStart);
      }
      if claudeMessageDelta && typ != Str("message_stop") {
        return Rejected(DataAfterFinish);
      }
      if typ == Str("message_start") {
        o := StartMessage(obj);
      } else if typ == Str("content_block_start") {
        o := StartBlock(obj);
      } else if typ == Str("content_block_delta") {
        o := ExtendBlock(obj);
      } else if typ == Str("content_block_stop") {
        o := StopBlock(obj);
      } else if typ == Str("message_delta") {
        o := EndMessage(obj);
      } else if typ == Str("message_stop") {
        o := StopMessage();
      } else {
        o := Accepted;
      }
    }

    /** The effect of one Claude event that cannot complete the answer. */
    ghost predicate ClaudeDid(r: Claude.ClaudeReply, before: Claude.ClaudeState, o: Outcome)
      reads this
    {
      && Numbered() && Claude.Consistent(ClaudeView())
      && match r
         case Continue(s) => o == Accepted && ClaudeView() == s
         case Complete(_, _) => false
         case Refused(f) => o == Rejected(f)
         case Raised => o == TypeError && ClaudeView() == before
    }

    method StartMessage(obj: Fields) returns (o: Outcome)
      requires Numbered() && Claude.Consistent(ClaudeView()) && !claudeMessageDelta
      modifies this`claudeStarted, this`claudeMeta, this`claudeUsage
      ensures ClaudeDid(Claude.OnMessageStart(old(ClaudeView()), obj), old(ClaudeView()), o)
    {
      if claudeStarted {
        return Rejected(DuplicateMessageStart);
      }
      var message := Get(obj, "message");
      if !message.Obj? {
        return Rejected(MalformedMessage);
      }
      claudeStarted := true;
      claudeMeta := claudeMeta + Claude.Identity(message.fields);
      claudeUsage := claudeUsage + Claude.UsageOf(message.fields);
      return Accepted;
    }

    method StartBlock(obj: Fields) returns (o: Outcome)
      requires Numbered() && Claude.Consistent(ClaudeView()) && claudeStarted && !claudeMessageDelta
      modifies this`claudeBlocks
      ensures ClaudeDid(Claude.OnBlockStart(old(ClaudeView()), obj), old(ClaudeView()), o)
    {
      var index, block := Get(obj, "index"), Get(obj, "content_block");
      if !index.Int? || index.i != |claudeBlocks| || |claudeClosed| != |claudeBlocks| || !block.Obj? {
        return Rejected(MalformedBlock);
      }
      var kind := Get(block.fields, "type");
      if !Hashable(kind) {
        return TypeError;
      }
      if !IsOneOf(kind, {"text", "thinking"}) {
        return Rejected(UnsupportedOutput);
      }
      var k := if kind.s == "text" then Claude.TextBlock else Claude.ThinkingBlock;
      var initial := GetOr(block.fields, Claude.FieldName(k), Str(""));
      if !initial.Str? {
        return Rejected(MalformedBlock);
      }
      ghost var before := BlockSeq();
      claudeBlocks := claudeBlocks[index.i := Claude.Block(k, initial.s, None)];
      assert BlockSeq() == before + [Claude.Block(k, initial.s, None)];
      return Accepted;
    }

    method ExtendBlock(obj: Fields) returns (o: Outcome)
      requires Numbered() && Claude.Consistent(ClaudeView()) && claudeStarted && !claudeMessageDelta
      modifies this`claudeBlocks
      ensures ClaudeDid(Claude.OnBlockDelta(old(ClaudeView()), obj), old(ClaudeView()), o)
    {
      var index, delta := Get(obj, "index"), Get(obj, "delta");
      if !index.Int? || index.i !in claudeBlocks || index.i in claudeClosed || !delta.Obj? {
        return Rejected(MalformedBlock);
      }
      var block, typ := claudeBlocks[index.i], Get(delta.fields, "type");
      if typ == Str("signature_delta") && block.kind == Claude.ThinkingBlock {
        var signature := Get(delta.fields, "signature");
        if !signature.Str? {
          return Rejected(MalformedDelta);
        }
        PutBlock(index.i, Claude.Sign(block, signature.s));
      } else if (typ == Str("text_delta") && block.kind == Claude.TextBlock)
             || (typ == Str("thinking_delta") && block.kind == Claude.ThinkingBlock) {
        var value := Get(delta.fields, Claude.FieldName(block.kind));
        if !value.Str? {
          return Rejected(MalformedDelta);
        }
        PutBlock(index.i, block.(text := block.text + value.s));
      } else {
        return Rejected(UnsupportedOutput);
      }
      return Accepted;
    }

    method PutBlock(index: int, block: Claude.Block)
      requires Numbered() && index in claudeBlocks
      modifies this`claudeBlocks
      ensures Numbered() && 0 <= index < |old(BlockSeq())| && BlockSeq() == old(BlockSeq())[index := block]
    {
      ghost var before := claudeBlocks;
      claudeBlocks := claudeBlocks[index := block];
      assert claudeBlocks.Keys == before.Keys;
      assert |claudeBlocks.Keys| == |before.Keys|;
    }

    method StopBlock(obj: Fields) returns (o: Outcome)
      requires Numbered() && Claude.Consistent(ClaudeView()) && claudeStarted && !claudeMessageDelta
      modifies this`claudeClosed
      ensures ClaudeDid(Claude.OnBlockStop(old(ClaudeView()), obj), old(ClaudeView()), o)
    {
      var index := Get(obj, "index");
      if !index.Int? || index.i !in claudeBlocks || index.i in claudeClosed {
        return Rejected(MalformedBlock);
      }
      claudeClosed := claudeClosed + {index.i};
      return Accepted;
    }

    method EndMessage(obj: Fields) returns (o: Outcome)
      requires Numbered() && Claude.Consistent(ClaudeView()) && claudeStarted && !claudeMessageDelta
      modifies this`claudeStop, this`claudeMessageDelta, this`claudeUsage
      ensures ClaudeDid(Claude.OnMessageDelta(old(ClaudeView()), obj), old(ClaudeView()), o)
    {
      if |claudeClosed| != |claudeBlocks| {
        return Rejected(UnclosedBlock);
      }
      var delta := Get(obj, "delta");
      if !delta.Obj? {
        return Rejected(MalformedDelta);
      }
      var stop := Get(delta.fields, "stop_reason");
      if !Hashable(stop) {
        return TypeError;
      }
      if !IsOneOf(stop, {"end_turn", "stop_sequence"}) {
        return Rejected(UnsupportedFinish);
      }
      claudeStop, claudeMessageDelta := Some(stop.s), true;
      claudeUsage := claudeUsage + Claude.UsageOf(obj);
      return Accepted;
    }

    method StopMessage() returns (o: Outcome)
      requires Numbered() && Claude.Consistent(ClaudeView()) && !isComplete
      modifies this`claudeMessageStop, this`isComplete, this`answer
      ensures Numbered() && Claude.Consistent(ClaudeView())
      ensures var r := Claude.OnMessageStop(old(ClaudeView()));
              && (r.Complete? ==>
                    o == Accepted && ClaudeView() == r.state && isComplete && answer == Some(ClaudeResult(r.answer)))
              && (r.Refused? ==> o == Rejected(r.fault))
              && !r.Continue? && !r.Raised?
    {
      if !claudeMessageDelta || claudeMessageStop || |claudeClosed| != |claudeBlocks| {
        return Rejected(InvalidTerminal);
      }
      claudeMessageStop := true;
      var content: seq<Claude.Block> := [];
      for i := 0 to |claudeBlocks|
        invariant content == BlockSeq()[..i]
      {
        content := content + [claudeBlocks[i]];
      }
      assert content == BlockSeq();
      isComplete := true;
      answer := Some(ClaudeResult(Claude.ClaudeAnswer(claudeMeta, claudeStop.value, content, claudeUsage)));
      return Accepted;
    }
  }
}
