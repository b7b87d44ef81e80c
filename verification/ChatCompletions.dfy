/** The OpenAI Chat Completions protocol of the stream assembler. */
module ChatCompletions {
  import opened Options
  import opened Json
  import opened StreamMessages

  datatype ChatState = ChatState(
    text: seq<string>, reasoning: seq<string>, meta: Fields, usage: Option<Fields>,
    finish: Option<string>, done: bool)

  datatype ChatAnswer = ChatAnswer(
    meta: Fields, content: string, reasoning: Option<string>, usage: Option<Fields>)

  type ChatReply = Reply<ChatState, ChatAnswer>

  const CHAT_START := ChatState([], [], map[], None, None, false)

  function AnswerOf(c: ChatState): ChatAnswer
  {
    ChatAnswer(c.meta, Concat(c.text), if c.reasoning == [] then None else Some(Concat(c.reasoning)), c.usage)
  }

  /** `calls is not None and (not isinstance(calls, list) or calls)` */
  predicate CallsTools(calls: Json) { calls != Null && calls != Arr([]) }

  /** Errors, refusals and tool calls on the event itself. */
  function ScreenEvent(obj: Fields): Verdict
  {
    if Get(obj, "error") != Null then Bad(ProviderError)
    else if !Hashable(Get(obj, "type")) then Error
    else if IsOneOf(Get(obj, "type"), {"error", "response.error"}) then Bad(ProviderError)
    else if Get(obj, "refusal") != Null && Get(obj, "refusal") != Str("") then Bad(Refusal)
    else if CallsTools(Get(obj, "tool_calls")) || Get(obj, "function_call") != Null then Bad(ToolCall)
    else Fine
  }

  /** One of the two identity keys: it must be a non-blank string and never change. */
  function ScreenIdentity(meta: Fields, obj: Fields, key: string): Verdict
  {
    if key !in obj then Fine
    else if !obj[key].Str? || BlankString(obj[key].s) then Bad(MalformedIdentity)
    else if key in meta && meta[key] != obj[key] then Bad(IdentityMismatch)
    else Fine
  }

  function Learn(meta: Fields, obj: Fields, key: string): Fields
  {
    if key in obj then meta[key := obj[key]] else meta
  }

  /** `meta.setdefault(key, obj[key])` */
  function LearnOnce(meta: Fields, obj: Fields, key: string): Fields
  {
    if key in obj && key !in meta then meta[key := obj[key]] else meta
  }

  function LearnRest(meta: Fields, obj: Fields): Fields
  {
    LearnOnce(LearnOnce(LearnOnce(meta, obj, "object"), obj, "created"), obj, "system_fingerprint")
  }

  /** The single choice of a chunk, when it has the supported form. */
  function ChoiceOf(choices: Json): Option<Fields>
  {
    if choices.Arr? && |choices.items| == 1 && choices.items[0].Obj?
       && EqualsZero(GetOr(choices.items[0].fields, "index", Int(0)))
    then Some(choices.items[0].fields) else None
  }

  function ScreenDelta(delta: Fields): Verdict
  {
    if Truthy(Get(delta, "refusal")) then Bad(Refusal)
    else if CallsTools(Get(delta, "tool_calls")) || Get(delta, "function_call") != Null then Bad(ToolCall)
    else if !Get(delta, "content").Null? && !Get(delta, "content").Str? then Bad(UnsupportedContent)
    else if !Reasoning(delta).Null? && !Reasoning(delta).Str? then Bad(UnsupportedReasoning)
    else Fine
  }

  /** `delta.get("reasoning_content", delta.get("reasoning"))` */
  function Reasoning(delta: Fields): Json
  {
    GetOr(delta, "reasoning_content", Get(delta, "reasoning"))
  }

  /** A string adds one part, null adds nothing. */
  function Part(j: Json): seq<string>
  {
    if j.Str? then [j.s] else []
  }

  function OnChoice(c: ChatState, choice: Fields): ChatReply
  {
    var delta := GetOr(choice, "delta", Obj(map[]));
    if !delta.Obj? then Refused(MalformedDelta)
    else if ScreenDelta(delta.fields) != Fine then Refused(ScreenDelta(delta.fields).fault)
    else
      var said := c.(text := c.text + Part(Get(delta.fields, "content")),
                     reasoning := c.reasoning + Part(Reasoning(delta.fields)));
      var finish := Get(choice, "finish_reason");
      if finish == Null then Continue(said)
      else if finish != Str("stop") || c.finish.Some? then Refused(UnsupportedFinish)
      else Continue(said.(finish := Some("stop")))
  }

  function OnObject(c: ChatState, obj: Fields): ChatReply
  {
    var screen := ScreenEvent(obj);
    if screen.Error? then Raised
    else if screen.Bad? then Refused(screen.fault)
    else
      var id := ScreenIdentity(c.meta, obj, "id");
      var c1 := c.(meta := Learn(c.meta, obj, "id"));
      var model := ScreenIdentity(c1.meta, obj, "model");
      if id.Bad? then Refused(id.fault)
      else if model.Bad? then Refused(model.fault)
      else
        var meta := LearnRest(Learn(c1.meta, obj, "model"), obj);
        var usage := Get(obj, "usage");
        if usage != Null && !usage.Obj? then Refused(MalformedUsage)
        else
          var c2 := c.(meta := meta, usage := if usage.Obj? then Some(usage.fields) else c.usage);
          var choices := Get(obj, "choices");
          if c.finish.Some? then
            if choices == Arr([]) && usage.Obj? then Continue(c2) else Refused(DataAfterFinish)
          else if choices == Null || (choices == Arr([]) && usage != Null) then Continue(c2)
          else if ChoiceOf(choices) == None then Refused(UnsupportedChoices)
          else OnChoice(c2, ChoiceOf(choices).value)
  }

  function ChatFeed(c: ChatState, m: Message): ChatReply
  {
    if m.name == "error" || m.name == "response.error" then Refused(ProviderError)
    else if m.body.Done? then
      if c.done || c.finish != Some("stop") then Refused(InvalidDone)
      else Complete(c.(done := true), AnswerOf(c))
    else if c.done then Refused(DataAfterTerminal)
    else if !m.body.Object? then Refused(MalformedJson)
    else OnObject(c, m.body.fields)
  }

  // ---------------------------------------------------------------------------------------------
  // What a completed run was
  // ---------------------------------------------------------------------------------------------

  /** The state after events that were all accepted. */
  function Run(c: ChatState, ms: seq<Message>): Option<ChatState>
    decreases |ms|
  {
    if ms == [] then Some(c)
    else
      match ChatFeed(c, ms[0])
      case Continue(next) => Run(next, ms[1..])
      case Complete(next, _) => Run(next, ms[1..])
      case Refused(_) => None
      case Raised => None
  }

  /** The delta an event carries in its single choice, read off the event alone. */
  function DeltaOf(m: Message): Fields
  {
    if m.body.Object? && ChoiceOf(Get(m.body.fields, "choices")).Some? then
      var delta := GetOr(ChoiceOf(Get(m.body.fields, "choices")).value, "delta", Obj(map[]));
      if delta.Obj? then delta.fields else map[]
    else map[]
  }

  function FinishOf(m: Message): Json
  {
    if m.body.Object? && ChoiceOf(Get(m.body.fields, "choices")).Some? then
      Get(ChoiceOf(Get(m.body.fields, "choices")).value, "finish_reason")
    else Null
  }

  /** All content deltas of a run, in order. */
  function Contents(ms: seq<Message>): seq<string>
    decreases |ms|
  {
    if ms == [] then [] else Part(Get(DeltaOf(ms[0]), "content")) + Contents(ms[1..])
  }

  function Reasonings(ms: seq<Message>): seq<string>
    decreases |ms|
  {
    if ms == [] then [] else Part(Reasoning(DeltaOf(ms[0]))) + Reasonings(ms[1..])
  }

  /** Nothing but usage: an empty choices list. */
  predicate UsageOnly(m: Message)
  {
    m.body.Object? && Get(m.body.fields, "choices") == Arr([]) && Get(m.body.fields, "usage").Obj?
  }

  lemma FeedCollects(c: ChatState, m: Message)
    ensures var r := ChatFeed(c, m);
            r.Continue? ==>
              && m.body.Object? && !c.done && r.state.done == c.done
              && r.state.text == c.text + Part(Get(DeltaOf(m), "content"))
              && r.state.reasoning == c.reasoning + Part(Reasoning(DeltaOf(m)))
              && (c.finish.Some? ==> UsageOnly(m) && r.state.finish == c.finish)
              && (c.finish == None ==> (r.state.finish == None || r.state.finish == Some("stop"))
                                       && (r.state.finish == Some("stop") <==> FinishOf(m) == Str("stop"))
                                       && (r.state.finish == None <==> FinishOf(m) == Null))
    ensures var r := ChatFeed(c, m);
            r.Complete? ==>
              && m.body.Done? && c.finish == Some("stop") && !c.done
              && r.state == c.(done := true) && r.answer == AnswerOf(c)
  {
    hide ScreenEvent, ScreenIdentity, ScreenDelta, Learn, LearnOnce;
  }

  lemma DoneRefuses(c: ChatState, m: Message)
    requires c.done
    ensures ChatFeed(c, m).Refused?
  {
  }

  lemma {:induction false} RunConcat(c: ChatState, a: seq<Message>, b: seq<Message>)
    ensures Run(c, a + b) == match Run(c, a) case None => None case Some(next) => Run(next, b)
    decreases |a|
  {
    hide ChatFeed;
    if a == [] {
      assert a + b == b;
    } else {
      assert (a + b)[1..] == a[1..] + b;
      var r := ChatFeed(c, a[0]);
      if r.Continue? || r.Complete? { RunConcat(r.state, a[1..], b); }
    }
  }

  /** A run of `ms` that ended with `[DONE]` after a `stop` finish at position `k`: only event `k`
      finishes, and between it and the end there is nothing but usage. */
  ghost predicate Finished(ms: seq<Message>, k: nat)
  {
    && k < |ms| - 1
    && ms[|ms| - 1].body.Done?
    && (forall i | 0 <= i < |ms| - 1 :: ms[i].body.Object?)
    && FinishOf(ms[k]) == Str("stop")
    && (forall i | 0 <= i < k :: FinishOf(ms[i]) == Null)
    && (forall i | k < i < |ms| - 1 :: UsageOnly(ms[i]))
  }

  /** Once the finish reason has come, only usage events and `[DONE]` are accepted. */
  lemma {:induction false} AfterFinish(c: ChatState, ms: seq<Message>)
    requires c.finish.Some? && !c.done && Run(c, ms).Some? && Run(c, ms).value.done
    ensures ms != [] && ms[|ms| - 1].body.Done?
    ensures forall i | 0 <= i < |ms| - 1 :: UsageOnly(ms[i])
    ensures Run(c, ms).value.text == c.text && Run(c, ms).value.reasoning == c.reasoning
    ensures Contents(ms) == [] && Reasonings(ms) == []
    decreases |ms|
  {
    hide ChatFeed;
    FeedCollects(c, ms[0]);
    var r := ChatFeed(c, ms[0]);
    if r.Complete? {
      if ms[1..] != [] { DoneRefuses(r.state, ms[1..][0]); }
      assert ms == [ms[0]] + ms[1..];
    } else {
      UsageSaysNothing(ms[0]);
      AfterFinish(r.state, ms[1..]);
      forall i | 0 <= i < |ms| - 1 ensures UsageOnly(ms[i]) {
        if i > 0 { assert ms[i] == ms[1..][i - 1]; }
      }
      assert ms[|ms| - 1] == ms[1..][|ms| - 2];
    }
  }

  lemma UsageSaysNothing(m: Message)
    requires UsageOnly(m)
    ensures DeltaOf(m) == map[]
  {
  }

  lemma {:induction false} BeforeFinish(c: ChatState, ms: seq<Message>) returns (k: nat)
    requires c.finish == None && !c.done && Run(c, ms).Some? && Run(c, ms).value.done
    ensures Finished(ms, k)
    ensures Run(c, ms).value.text == c.text + Contents(ms)
    ensures Run(c, ms).value.reasoning == c.reasoning + Reasonings(ms)
    decreases |ms|
  {
    hide ChatFeed, DeltaOf, FinishOf, Reasoning;
    FeedCollects(c, ms[0]);
    var r := ChatFeed(c, ms[0]);
    var next := r.state;
    var said, thought := Part(Get(DeltaOf(ms[0]), "content")), Part(Reasoning(DeltaOf(ms[0])));
    if next.finish.Some? {
      AfterFinish(next, ms[1..]);
      k := 0;
      assert ms[|ms| - 1] == ms[1..][|ms| - 2];
      forall i | 0 < i < |ms| - 1 ensures UsageOnly(ms[i]) { assert ms[i] == ms[1..][i - 1]; }
      assert said + [] == said && thought + [] == thought;
    } else {
      k := BeforeFinish(next, ms[1..]);
      ShiftFinished(ms, k);
      k := k + 1;
      assert c.text + said + Contents(ms[1..]) == c.text + (said + Contents(ms[1..]));
      assert c.reasoning + thought + Reasonings(ms[1..]) == c.reasoning + (thought + Reasonings(ms[1..]));
    }
  }

  lemma ShiftFinished(ms: seq<Message>, k: nat)
    requires ms != [] && Finished(ms[1..], k) && ms[0].body.Object? && FinishOf(ms[0]) == Null
    ensures Finished(ms, k + 1)
  {
    var rest := ms[1..];
    assert forall i | 0 < i < |ms| :: ms[i] == rest[i - 1];
  }

  /** A Chat answer is only ever complete after exactly one `stop` finish, nothing but usage after it
      and `[DONE]` at the end; its content is then every content delta of the run, in order. */
  lemma ChatAnswerIsWhole(ms: seq<Message>) returns (k: nat)
    requires Run(CHAT_START, ms).Some? && Run(CHAT_START, ms).value.done
    ensures Finished(ms, k)
    ensures var answer := AnswerOf(Run(CHAT_START, ms).value);
            && answer.content == Concat(Contents(ms))
            && (answer.reasoning == if Reasonings(ms) == [] then None else Some(Concat(Reasonings(ms))))
  {
    hide Finished, Contents, Reasonings;
    k := BeforeFinish(CHAT_START, ms);
    assert [] + Contents(ms) == Contents(ms) && [] + Reasonings(ms) == Reasonings(ms);
  }

  /** The identity an answer carries is the identity every event of the run carried. */
  lemma {:induction false} IdentityNeverChanges(c: ChatState, ms: seq<Message>, key: string)
    requires key == "id" || key == "model"
    requires Run(c, ms).Some?
    ensures key in c.meta ==> key in Run(c, ms).value.meta && Run(c, ms).value.meta[key] == c.meta[key]
    ensures forall i | 0 <= i < |ms| && ms[i].body.Object? && key in ms[i].body.fields ::
              key in Run(c, ms).value.meta && Run(c, ms).value.meta[key] == ms[i].body.fields[key]
    decreases |ms|
  {
    if ms != [] {
      hide ChatFeed;
      FeedKeepsIdentity(c, ms[0], key);
      var r := ChatFeed(c, ms[0]);
      IdentityNeverChanges(r.state, ms[1..], key);
      forall i | 0 < i < |ms| ensures ms[i] == ms[1..][i - 1] {}
    }
  }

  lemma FeedKeepsIdentity(c: ChatState, m: Message, key: string)
    requires key == "id" || key == "model"
    ensures var r := ChatFeed(c, m);
            r.Continue? || r.Complete? ==>
              && (key in c.meta ==> key in r.state.meta && r.state.meta[key] == c.meta[key])
              && (m.body.Object? && key in m.body.fields ==>
                    key in r.state.meta && r.state.meta[key] == m.body.fields[key])
  {
    hide ScreenEvent, OnChoice, BlankString, ChoiceOf, LearnRest;
    if m.body.Object? {
      var obj := m.body.fields;
      RestKeeps(Learn(Learn(c.meta, obj, "id"), obj, "model"), obj, key);
      ChoiceKeepsMeta();
    }
  }

  lemma RestKeeps(meta: Fields, obj: Fields, key: string)
    ensures key in meta ==> key in LearnRest(meta, obj) && LearnRest(meta, obj)[key] == meta[key]
  {
  }

  lemma ChoiceKeepsMeta()
    ensures forall c, choice :: OnChoice(c, choice).Continue? ==> OnChoice(c, choice).state.meta == c.meta
    ensures forall c, choice :: !OnChoice(c, choice).Complete?
  {
    hide ScreenDelta;
  }
}
