/** Exactly which event lists the stream assembler answers, protocol by protocol. */
module StreamAnswers {
  import opened Options
  import opened Json
  import opened StreamMessages
  import opened StreamAssembler
  import Chat = ChatCompletions
  import ChatGrammar
  import Responses = ResponsesApi
  import ResponsesGrammar
  import Claude = ClaudeMessages
  import ClaudeGrammar

  /** The events are a whole answer in the protocol, told by the events alone. */
  ghost predicate IsAnswer(protocol: Protocol, ms: seq<Message>)
  {
    match protocol
    case OpenAiChat => ChatGrammar.IsChat(ms)
    case OpenAiResponses =>
      ms != [] && ResponsesGrammar.AllPass(ms[..|ms| - 1]) && ResponsesGrammar.Closes(ms[..|ms| - 1], ms[|ms| - 1])
    case ClaudeProtocol => exists shape :: ClaudeGrammar.IsMessage(ms, shape)
  }

  lemma {:induction false} ChatRunsBack(a: Assembler, ms: seq<Message>)
    requires Sound(a) && a.protocol == OpenAiChat && !a.failed && Chat.Run(a.chat, AllNamed(ms)).Some?
    ensures AfterAll(a, ms).Some? && AfterAll(a, ms).value.chat == Chat.Run(a.chat, AllNamed(ms)).value
    ensures !AfterAll(a, ms).value.failed
    decreases |ms|
  {
    hide Chat.ChatFeed;
    if ms != [] {
      assert AllNamed(ms)[0] == Named(ms[0]) && AllNamed(ms)[1..] == AllNamed(ms[1..]);
      ChatRunsBack(After(a, ms[0]).0, ms[1..]);
    }
  }

  lemma {:induction false} ClaudeRunsBack(a: Assembler, ms: seq<Message>)
    requires Sound(a) && a.protocol == ClaudeProtocol && !a.failed && ClaudeGrammar.Run(a.claude, AllNamed(ms)).Some?
    ensures AfterAll(a, ms).Some? && AfterAll(a, ms).value.claude == ClaudeGrammar.Run(a.claude, AllNamed(ms)).value
    ensures !AfterAll(a, ms).value.failed
    decreases |ms|
  {
    hide Claude.ClaudeFeed;
    if ms != [] {
      assert AllNamed(ms)[0] == Named(ms[0]) && AllNamed(ms)[1..] == AllNamed(ms[1..]);
      ClaudeRunsBack(After(a, ms[0]).0, ms[1..]);
    }
  }

  lemma {:induction false} ResponsesRunsBack(a: Assembler, front: seq<Message>, last: Message)
    requires Sound(a) && a.protocol == OpenAiResponses && !a.failed && !a.complete
    requires Responses.Run(a.responses, AllNamed(front)).Some?
    requires Responses.ResponsesFeed(Responses.Run(a.responses, AllNamed(front)).value, Named(last)).Complete?
    ensures AfterAll(a, front + [last]).Some? && AfterAll(a, front + [last]).value.complete
    decreases |front|
  {
    hide Responses.ResponsesFeed;
    var ms := front + [last];
    if front == [] {
      assert ms[1..] == [];
    } else {
      assert AllNamed(front)[0] == Named(front[0]) && AllNamed(front)[1..] == AllNamed(front[1..]);
      assert ms[1..] == front[1..] + [last];
      ResponsesRunsBack(After(a, ms[0]).0, front[1..], last);
    }
  }

  /** The assembler has accepted every event and has an answer. */
  predicate Answered(protocol: Protocol, ms: seq<Message>)
  {
    AfterAll(Fresh(protocol), ms).Some? && Readable(AfterAll(Fresh(protocol), ms).value).Some?
  }

  lemma ChatAnswered(ms: seq<Message>)
    ensures Answered(OpenAiChat, ms) <==> IsAnswer(OpenAiChat, AllNamed(ms))
  {
    hide AfterAll, Chat.Run, ChatGrammar.IsChat, ChatGrammar.AllLearned;
    var a := Fresh(OpenAiChat);
    ChatGrammar.ChatCompletesExactly(AllNamed(ms));
    if AfterAll(a, ms).Some? { ChatRuns(a, ms); }
    if Chat.Run(a.chat, AllNamed(ms)).Some? { ChatRunsBack(a, ms); }
  }

  lemma ClaudeAnswered(ms: seq<Message>)
    ensures Answered(ClaudeProtocol, ms) <==> IsAnswer(ClaudeProtocol, AllNamed(ms))
  {
    hide AfterAll, ClaudeGrammar.Run, ClaudeGrammar.IsMessage, ClaudeGrammar.Answers;
    var a := Fresh(ClaudeProtocol);
    ClaudeGrammar.ClaudeCompletesExactlyOnMessages(AllNamed(ms));
    if AfterAll(a, ms).Some? { ClaudeRuns(a, ms); }
    if ClaudeGrammar.Run(a.claude, AllNamed(ms)).Some? { ClaudeRunsBack(a, ms); }
  }

  lemma NamedFront(ms: seq<Message>)
    requires ms != []
    ensures AllNamed(ms)[..|ms| - 1] == AllNamed(ms[..|ms| - 1]) && AllNamed(ms)[|ms| - 1] == Named(ms[|ms| - 1])
  {
  }

  lemma ResponsesAnswered(ms: seq<Message>)
    ensures Answered(OpenAiResponses, ms) <==> IsAnswer(OpenAiResponses, AllNamed(ms))
  {
    hide AfterAll, AllNamed, Responses.Run, Responses.ResponsesFeed, ResponsesGrammar.AllPass, ResponsesGrammar.Closes;
    var a := Fresh(OpenAiResponses);
    if ms == [] {
      NothingAnswered();
    } else {
      var front, last := ms[..|ms| - 1], ms[|ms| - 1];
      NamedFront(ms);
      ResponsesGrammar.ResponsesCompleteExactly(AllNamed(front), Named(last));
      if Answered(OpenAiResponses, ms) { ResponsesRuns(a, ms); }
      if Responses.Run(a.responses, AllNamed(front)).Some?
         && Responses.ResponsesFeed(Responses.Run(a.responses, AllNamed(front)).value, Named(last)).Complete? {
        ResponsesRunsBack(a, front, last);
        assert ms == front + [last];
      }
    }
  }

  lemma NothingAnswered()
    ensures AllNamed([]) == [] && !Answered(OpenAiResponses, [])
  {
  }

  /** In each protocol an event list is answered exactly when it is a whole answer of it. */
  lemma AnsweredExactly(protocol: Protocol, ms: seq<Message>)
    ensures Answered(protocol, ms) <==> IsAnswer(protocol, AllNamed(ms))
  {
    hide Answered, IsAnswer;
    match protocol {
      case OpenAiChat => ChatAnswered(ms);
      case OpenAiResponses => ResponsesAnswered(ms);
      case ClaudeProtocol => ClaudeAnswered(ms);
    }
  }

  // ---------------------------------------------------------------------------------------------
  // A Responses stream
  // ---------------------------------------------------------------------------------------------

  const CREATED := Message("response.created", Object(map["type" := Str("response.created")]))
  const DELTA := Message("response.output_text.delta",
                         Object(map["type" := Str("response.output_text.delta"), "delta" := Str("Hold.")]))
  const OUTPUT: Json :=
    Obj(map["type" := Str("message"),
            "content" := Arr([Obj(map["type" := Str("output_text"), "text" := Str("Hold.")])])])
  const RESPONSE: Fields := map["status" := Str("completed"), "output" := Arr([OUTPUT])]
  const COMPLETED := Message("response.completed",
                             Object(map["type" := Str("response.completed"), "response" := Obj(RESPONSE)]))

  /** No part of the type is a refusal or a tool. */
  ghost predicate FineParts(typ: string)
  {
    forall part | ResponsesGrammar.PartOf(part, typ) :: part != "refusal" && !ResponsesGrammar.ToolName(part)
  }

  lemma FineAlone(part: string)
    requires '.' !in part && part != "refusal" && !ResponsesGrammar.ToolName(part)
    ensures FineParts(part)
  {
    hide ResponsesGrammar.PartOf, ResponsesGrammar.ToolName;
    forall other ensures ResponsesGrammar.PartOf(other, part) <==> other == part { ResponsesGrammar.OnlyPart(other, part); }
  }

  lemma FineBehind(part: string, rest: string)
    requires '.' !in part && part != "refusal" && !ResponsesGrammar.ToolName(part) && FineParts(rest)
    ensures FineParts(part + "." + rest)
  {
    hide ResponsesGrammar.PartOf, ResponsesGrammar.ToolName;
    var typ := part + "." + rest;
    assert typ[..|part|] == part && typ[|part| + 1..] == rest && typ[|part|] == '.';
    forall other ensures ResponsesGrammar.PartOf(other, typ) <==> other == part || ResponsesGrammar.PartOf(other, rest) {
      ResponsesGrammar.PartBehindDot(other, typ, |part|);
    }
  }

  lemma LetterThere(needle: string, s: string, j: int, i: nat)
    requires ResponsesGrammar.OccursAt(needle, s, j) && i < |needle|
    ensures needle[i] in s && needle[0] in s[..|s| - |needle| + 1]
  {
    assert s[j..j + |needle|][i] == s[j + i] && s[j..j + |needle|][0] == s[j];
    assert s[..|s| - |needle| + 1][j] == s[j];
  }

  /** A needle one of whose letters is missing does not occur. */
  lemma Lacks(needle: string, s: string, i: nat)
    requires i < |needle| && needle[i] !in s
    ensures !ResponsesGrammar.Occurs(needle, s)
  {
    forall j ensures ResponsesGrammar.OccursAt(needle, s, j) ==> needle[i] in s {
      if ResponsesGrammar.OccursAt(needle, s, j) { LetterThere(needle, s, j, i); }
    }
  }

  /** Nor does one whose first letter comes too late. */
  lemma TooLate(needle: string, s: string)
    requires 0 < |needle| <= |s| && needle[0] !in s[..|s| - |needle| + 1]
    ensures !ResponsesGrammar.Occurs(needle, s)
  {
    forall j ensures ResponsesGrammar.OccursAt(needle, s, j) ==> needle[0] in s[..|s| - |needle| + 1] {
      if ResponsesGrammar.OccursAt(needle, s, j) { LetterThere(needle, s, j, 0); }
    }
  }

  lemma NotATool(part: string)
    requires part != "" && part[0] != 'm'
    requires !ResponsesGrammar.Occurs("tool", part) && !ResponsesGrammar.Occurs("_call", part)
    ensures !ResponsesGrammar.ToolName(part)
  {
    if |part| >= 4 { assert part[..4][0] == part[0]; }
  }

  lemma WithoutL(part: string)
    requires part != "" && part[0] != 'm' && 'l' !in part
    ensures !ResponsesGrammar.ToolName(part)
  {
    hide ResponsesGrammar.Occurs, ResponsesGrammar.ToolName;
    Lacks("tool", part, 3);
    Lacks("_call", part, 4);
    NotATool(part);
  }

  lemma DeltaIsNoTool()
    ensures !ResponsesGrammar.ToolName("delta")
  {
    hide ResponsesGrammar.Occurs, ResponsesGrammar.ToolName;
    assert "delta"[..2] == "de" && "delta"[..1] == "d";
    TooLate("tool", "delta");
    TooLate("_call", "delta");
    NotATool("delta");
  }

  lemma CompletedIsNoTool()
    ensures !ResponsesGrammar.ToolName("completed")
  {
    hide ResponsesGrammar.Occurs, ResponsesGrammar.ToolName;
    assert "completed"[..6] == "comple" && "completed"[..5] == "compl";
    TooLate("tool", "completed");
    TooLate("_call", "completed");
    NotATool("completed");
  }

  lemma CreatedHarmless()
    ensures ResponsesGrammar.Harmless("response.created")
  {
    hide ResponsesGrammar.PartOf, ResponsesGrammar.ToolName;
    WithoutL("response");
    WithoutL("created");
    FineAlone("created");
    FineBehind("response", "created");
    assert "response" + "." + "created" == "response.created";
  }

  lemma CompletedHarmless()
    ensures ResponsesGrammar.Harmless("response.completed")
  {
    hide ResponsesGrammar.PartOf, ResponsesGrammar.ToolName;
    WithoutL("response");
    CompletedIsNoTool();
    FineAlone("completed");
    FineBehind("response", "completed");
    assert "response" + "." + "completed" == "response.completed";
  }

  lemma DeltaHarmless()
    ensures ResponsesGrammar.Harmless("response.output_text.delta")
  {
    hide ResponsesGrammar.PartOf, ResponsesGrammar.ToolName;
    WithoutL("response");
    WithoutL("output_text");
    DeltaIsNoTool();
    FineAlone("delta");
    FineBehind("output_text", "delta");
    FineJoined();
    FineBehind("response", "output_text.delta");
    assert "response" + "." + "output_text.delta" == "response.output_text.delta";
  }

  lemma FineJoined()
    requires FineParts("output_text" + "." + "delta")
    ensures FineParts("output_text.delta")
  {
    hide FineParts;
    assert "output_text" + "." + "delta" == "output_text.delta";
  }

  lemma ExamplePasses()
    ensures ResponsesGrammar.AllPass([CREATED, DELTA])
  {
    hide ResponsesGrammar.Harmless;
    CreatedHarmless();
    DeltaHarmless();
  }

  lemma ExampleTexts()
    ensures Responses.Deltas([CREATED, DELTA]) == ["Hold."] && ResponsesGrammar.ReasoningDeltas([CREATED, DELTA]) == []
    ensures Responses.OutputTexts([OUTPUT]) == ["Hold."]
  {
    assert [CREATED, DELTA][1..] == [DELTA] && [DELTA][1..] == [];
    assert Responses.DeltaOf(CREATED) == [] && Responses.DeltaOf(DELTA) == ["Hold."];
    assert ResponsesGrammar.ReasoningOf(CREATED) == [] && ResponsesGrammar.ReasoningOf(DELTA) == [];
    assert Responses.Deltas([DELTA]) == ["Hold."] + [];
    assert ResponsesGrammar.ReasoningDeltas([DELTA]) == [] + [];
    var block := Obj(map["type" := Str("output_text"), "text" := Str("Hold.")]);
    assert [block][1..] == [] && [OUTPUT][1..] == [];
    assert Responses.BlockTexts([block]) == ["Hold."] + [];
    assert Responses.OutputTexts([OUTPUT]) == ["Hold."] + [];
  }

  lemma ExampleFinished()
    ensures ResponsesGrammar.Finished(OUTPUT)
  {
    var block := Obj(map["type" := Str("output_text"), "text" := Str("Hold.")]);
    assert ResponsesGrammar.SpokenBlock(block);
  }

  lemma ExampleCompleted()
    ensures ResponsesGrammar.Completed([CREATED, DELTA], RESPONSE)
  {
    hide ResponsesGrammar.Finished, Responses.Deltas, Responses.OutputTexts, ResponsesGrammar.ReasoningDeltas, OUTPUT;
    ExampleTexts();
    ExampleFinished();
  }

  lemma ExampleCloses()
    ensures ResponsesGrammar.Closes([CREATED, DELTA], COMPLETED)
  {
    hide ResponsesGrammar.Harmless, ResponsesGrammar.Completed, RESPONSE;
    CompletedHarmless();
    ExampleCompleted();
  }

  lemma ExampleNamed()
    ensures AllNamed([CREATED, DELTA, COMPLETED]) == [CREATED, DELTA, COMPLETED]
  {
    hide RESPONSE;
    assert Named(CREATED) == CREATED && Named(DELTA) == DELTA && Named(COMPLETED) == COMPLETED;
  }

  /** A stream of a created event, which the protocol does nothing with, a text delta and the completed
      response is answered. */
  lemma ExampleAnswered()
    ensures Answered(OpenAiResponses, [CREATED, DELTA, COMPLETED])
  {
    hide ResponsesGrammar.AllPass, ResponsesGrammar.Closes, Answered, CREATED, DELTA, COMPLETED;
    var ms := [CREATED, DELTA, COMPLETED];
    AnsweredExactly(OpenAiResponses, ms);
    ExamplePasses();
    ExampleCloses();
    ExampleNamed();
    assert ms[..2] == [CREATED, DELTA];
  }
}
