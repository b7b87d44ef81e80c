/**
 Which event lists the Responses protocol answers, read off the events alone.

 `Passes` says which events may come in front, those of types the protocol does nothing with included,
 and `Closes` which event completes the answer behind them.
 */
module ResponsesGrammar {
  import opened Options
  import opened Json
  import opened StreamMessages
  import opened ResponsesApi

  // ---------------------------------------------------------------------------------------------
  // Types
  // ---------------------------------------------------------------------------------------------

  predicate OccursAt(needle: string, s: string, i: int)
  {
    0 <= i <= |s| - |needle| && s[i..i + |needle|] == needle
  }

  ghost predicate Occurs(needle: string, s: string)
  {
    exists i :: OccursAt(needle, s, i)
  }

  /** `part` stands in `s` between dots, or between a dot and an end. */
  ghost predicate PartOf(part: string, s: string)
  {
    && '.' !in part
    && exists i :: StandsAt(part, s, i)
  }

  predicate StandsAt(part: string, s: string, i: int)
  {
    && 0 <= i <= |s| - |part| && s[i..i + |part|] == part
    && (i > 0 ==> s[i - 1] == '.')
    && (i + |part| < |s| ==> s[i + |part|] == '.')
  }

  ghost predicate ToolName(part: string)
  {
    Occurs("tool", part) || Occurs("_call", part) || (|part| >= 4 && part[..4] == "mcp_")
  }

  /** A type that announces neither an error nor a refusal nor a tool. */
  ghost predicate Harmless(typ: string)
  {
    && typ !in {"error", "response.error", "response.failed", "response.incomplete"}
    && !PartOf("refusal", typ)
    && forall part :: ToolName(part) ==> !PartOf(part, typ)
  }

  // ---------------------------------------------------------------------------------------------
  // Events
  // ---------------------------------------------------------------------------------------------

  const TEXT_DELTAS: set<string> := {"response.output_text.delta", "output_text.delta"}
  const REASONING_DELTAS: set<string> := {"response.reasoning_text.delta", "response.reasoning_summary_text.delta"}
  const ITEM_EVENTS: set<string> := {"response.output_item.added", "response.output_item.done"}
  const PART_EVENTS: set<string> := {"response.content_part.added", "response.content_part.done"}

  /** The event is an object without an error, and its name and its type are harmless. */
  ghost predicate Clean(m: Message)
  {
    && Harmless(m.name) && m.body.Object? && !Truthy(Get(m.body.fields, "error"))
    && TypeOf(m).Str? && Harmless(TypeOf(m).s)
  }

  predicate TextBlock(block: Json)
  {
    block.Obj? && Get(block.fields, "type") == Str("output_text")
  }

  predicate SpokenBlock(block: Json)
  {
    TextBlock(block) && Get(block.fields, "text").Str?
  }

  /** What an item event may announce: one of the kinds, and a message only of text blocks. */
  predicate Announces(obj: Fields, kinds: set<string>)
  {
    var item := if "item" in obj then obj["item"] else if "part" in obj then obj["part"] else Null;
    && item.Obj? && Get(item.fields, "type").Str? && Get(item.fields, "type").s in kinds
    && (Get(item.fields, "type").s == "message" && "content" in item.fields ==>
          item.fields["content"].Arr? && forall block <- item.fields["content"].items :: TextBlock(block))
  }

  /** An event that may come in front of the completing one. */
  ghost predicate Passes(m: Message)
  {
    && Clean(m)
    && var typ, obj := TypeOf(m).s, m.body.fields;
       && typ != "response.completed"
       && (typ in TEXT_DELTAS + REASONING_DELTAS ==> Get(obj, "delta").Str?)
       && (typ in ITEM_EVENTS ==> Announces(obj, {"message", "reasoning"}))
       && (typ in PART_EVENTS ==> Announces(obj, {"output_text", "reasoning_text", "summary_text"}))
  }

  /** A finished item of the output: a message of text blocks, or a reasoning. */
  predicate Finished(item: Json)
  {
    && item.Obj? && (Get(item.fields, "status") == Null || Get(item.fields, "status") == Str("completed"))
    && ((Get(item.fields, "type") == Str("message") && Get(item.fields, "content").Arr?
         && forall block <- Get(item.fields, "content").items :: SpokenBlock(block))
        || (Get(item.fields, "type") == Str("reasoning")
            && ("summary" !in item.fields || item.fields["summary"].Arr? || item.fields["summary"].Str?
                || item.fields["summary"].Obj?)))
  }

  /** The reasoning delta an event carries. */
  function ReasoningOf(m: Message): seq<string>
  {
    if m.body.Object? && TypeOf(m).Str? && TypeOf(m).s in REASONING_DELTAS && Get(m.body.fields, "delta").Str?
    then [Get(m.body.fields, "delta").s] else []
  }

  function ReasoningDeltas(ms: seq<Message>): seq<string>
    decreases |ms|
  {
    if ms == [] then [] else ReasoningOf(ms[0]) + ReasoningDeltas(ms[1..])
  }

  /** The summary texts of a reasoning item. */
  function SummaryOf(item: Json): seq<string>
  {
    if item.Obj? && Get(item.fields, "type") == Str("reasoning") && Get(item.fields, "summary").Arr?
    then BlockTexts(Get(item.fields, "summary").items) else []
  }

  /** The summary texts of the reasoning items of an output, in order. */
  function Summaries(output: seq<Json>): seq<string>
    decreases |output|
  {
    if output == [] then [] else SummaryOf(output[0]) + Summaries(output[1..])
  }

  /** The response is completed, its output is finished and has text, and nothing streamed contradicts it. */
  predicate Completed(front: seq<Message>, response: Fields)
  {
    && Get(response, "status") == Str("completed")
    && !Truthy(Get(response, "error")) && !Truthy(Get(response, "incomplete_details"))
    && Get(response, "output").Arr?
    && var output := Get(response, "output").items;
       && (forall item <- output :: Finished(item))
       && OutputTexts(output) != []
       && (Deltas(front) != [] ==> Concat(Deltas(front)) == Concat(OutputTexts(output)))
       && ("output_text" in response ==> response["output_text"] == Str(Concat(OutputTexts(output))))
       && (ReasoningDeltas(front) != [] && Summaries(output) != [] ==>
             Concat(ReasoningDeltas(front)) == Concat(Summaries(output)))
  }

  /** The event that completes the answer behind `front`. */
  ghost predicate Closes(front: seq<Message>, m: Message)
  {
    && Clean(m) && TypeOf(m).s == "response.completed"
    && Get(m.body.fields, "response").Obj? && Completed(front, Get(m.body.fields, "response").fields)
  }

  ghost predicate AllPass(ms: seq<Message>)
  {
    forall i | 0 <= i < |ms| :: Passes(ms[i])
  }

  // ---------------------------------------------------------------------------------------------
  // Types are screened as told
  // ---------------------------------------------------------------------------------------------

  lemma {:induction false} ContainsExactly(s: string, needle: string)
    ensures Contains(s, needle) <==> Occurs(needle, s)
    decreases |s|
  {
    if |needle| <= |s| && s != "" {
      ContainsExactly(s[1..], needle);
      assert s[..|needle|] == s[0..0 + |needle|];
      if Occurs(needle, s[1..]) {
        var i :| OccursAt(needle, s[1..], i);
        assert s[1..][i..i + |needle|] == s[i + 1..i + 1 + |needle|];
        assert OccursAt(needle, s, i + 1);
      }
      if Occurs(needle, s) {
        var i :| OccursAt(needle, s, i);
        if i > 0 {
          assert s[1..][i - 1..i - 1 + |needle|] == s[i..i + |needle|];
          assert OccursAt(needle, s[1..], i - 1);
        }
      }
      assert s[..|needle|] == needle ==> OccursAt(needle, s, 0);
    } else if |needle| <= |s| {
      assert OccursAt(needle, s, 0);
    }
  }

  lemma OnlyPart(part: string, s: string)
    requires '.' !in s
    ensures PartOf(part, s) <==> part == s
  {
    if part == s { assert StandsAt(part, s, 0); }
  }

  lemma PartBehindDot(part: string, s: string, k: nat)
    requires k < |s| && s[k] == '.' && '.' !in s[..k]
    ensures PartOf(part, s) <==> part == s[..k] || PartOf(part, s[k + 1..])
  {
    var rest := s[k + 1..];
    assert forall j | 0 <= j < k :: s[..k][j] == s[j];
    if PartOf(part, s) {
      var i :| StandsAt(part, s, i);
      if i == 0 {
        assert part == s[..|part|];
        assert forall j | 0 <= j < |part| :: part[j] == s[j];
      } else {
        assert StandsAt(part, rest, i - k - 1);
      }
    }
    if part == s[..k] { assert StandsAt(part, s, 0); }
    if PartOf(part, rest) {
      var i :| StandsAt(part, rest, i);
      assert s[k + 1..][i..i + |part|] == s[i + k + 1..i + k + 1 + |part|];
      assert StandsAt(part, s, i + k + 1);
    }
  }

  lemma {:induction false} AnyPartExactly(s: string, p: string -> bool)
    ensures AnyPart(s, p) <==> exists part :: PartOf(part, s) && p(part)
    decreases |s|
  {
    hide PartOf;
    if exists i | 0 <= i < |s| :: s[i] == '.' {
      var k := DotAt(s);
      forall part ensures PartOf(part, s) <==> part == s[..k] || PartOf(part, s[k + 1..]) { PartBehindDot(part, s, k); }
      AnyPartExactly(s[k + 1..], p);
    } else {
      forall part ensures PartOf(part, s) <==> part == s { OnlyPart(part, s); }
    }
  }

  lemma ToolPartExactly(part: string)
    ensures ToolPart(part) <==> ToolName(part)
  {
    ContainsExactly(part, "tool");
    ContainsExactly(part, "_call");
  }

  /** A type passes the screen exactly when it is harmless text. */
  lemma ScreenExactly(typ: Json)
    ensures ScreenType(typ) == Fine <==> typ.Str? && Harmless(typ.s)
    ensures !ScreenType(typ).Error?
  {
    hide AnyPart, PartOf, ToolPart, ToolName;
    if typ.Str? {
      AnyPartExactly(typ.s, part => part == "refusal");
      AnyPartExactly(typ.s, ToolPart);
      forall part ensures ToolPart(part) <==> ToolName(part) { ToolPartExactly(part); }
    }
  }

  // ---------------------------------------------------------------------------------------------
  // The events are judged as told
  // ---------------------------------------------------------------------------------------------

  lemma TextBlocksExactly(blocks: Json)
    ensures TextBlocks(blocks) <==> blocks.Arr? && forall block <- blocks.items :: TextBlock(block)
  {
    if blocks.Arr? {
      assert forall i | 0 <= i < |blocks.items| :: blocks.items[i] in blocks.items;
    }
  }

  lemma ItemExactly(typ: string, obj: Fields)
    requires typ in ITEM_EVENTS + PART_EVENTS
    ensures var kinds := if typ in ITEM_EVENTS then {"message", "reasoning"} else {"output_text", "reasoning_text", "summary_text"};
            ScreenItem(typ, obj) == Fine <==> Announces(obj, kinds)
  {
    hide Contains;
    ContainsExactly(typ, "output_item");
    NamesItem(typ);
    var item := GetOr(obj, "item", GetOr(obj, "part", Obj(map[])));
    if item.Obj? { TextBlocksExactly(GetOr(item.fields, "content", Arr([]))); }
  }

  lemma NamesItem(typ: string)
    requires typ in ITEM_EVENTS + PART_EVENTS
    ensures Occurs("output_item", typ) <==> typ in ITEM_EVENTS
  {
    assert 'u' !in "response.content_part.added" && 'u' !in "response.content_part.done";
    if typ in ITEM_EVENTS {
      assert OccursAt("output_item", typ, 9);
    } else {
      assert "output_item"[1] == 'u';
      forall i | OccursAt("output_item", typ, i) ensures 'u' in typ {
        assert typ[i..i + 11][1] == typ[i + 1];
      }
    }
  }

  lemma {:induction false} MessageTextExactly(blocks: seq<Json>)
    ensures MessageText(blocks).Some? <==> forall block <- blocks :: SpokenBlock(block)
    decreases |blocks|
  {
    if blocks != [] {
      MessageTextExactly(blocks[1..]);
      assert MessageText(blocks).Some? <==> SpokenBlock(blocks[0]) && MessageText(blocks[1..]).Some?;
      hide MessageText, SpokenBlock;
      assert forall block <- blocks :: block == blocks[0] || block in blocks[1..];
      assert blocks[0] in blocks && forall block <- blocks[1..] :: block in blocks;
    }
  }

  lemma GatherItemExactly(item: Json)
    ensures GatherItem(item).Gathered? <==> Finished(item)
    ensures GatherItem(item).Gathered? ==> GatherItem(item).reasoning == SummaryOf(item)
  {
    hide MessageText;
    if item.Obj? && Get(item.fields, "content").Arr? { MessageTextExactly(Get(item.fields, "content").items); }
  }

  lemma {:induction false} GatherExactly(output: seq<Json>)
    ensures Gather(output).Gathered? <==> forall item <- output :: Finished(item)
    ensures Gather(output).Gathered? ==> Gather(output).text == OutputTexts(output)
    ensures Gather(output).Gathered? ==> Gather(output).reasoning == Summaries(output)
    decreases |output|
  {
    hide GatherItem, Finished, SummaryOf, OutputTexts;
    GatheredTexts(output);
    if output != [] {
      GatherItemExactly(output[0]);
      GatherExactly(output[1..]);
      assert forall item <- output :: item == output[0] || item in output[1..];
      assert output[0] in output && forall item <- output[1..] :: item in output;
    }
  }

  lemma CompletedExactly(r: ResponsesState, front: seq<Message>, obj: Fields)
    requires r.text == Deltas(front) && r.reasoning == ReasoningDeltas(front)
    ensures OnCompleted(r, obj).Complete?
       <==> Get(obj, "response").Obj? && Completed(front, Get(obj, "response").fields)
  {
    hide Gather, OutputTexts, Summaries, Deltas, ReasoningDeltas, Concat, Truthy, Finished;
    var response := Get(obj, "response");
    if response.Obj? && Get(response.fields, "output").Arr? { GatherExactly(Get(response.fields, "output").items); }
  }

  lemma TypedExactly(r: ResponsesState, typ: string, obj: Fields)
    ensures var reply := OnTyped(r, typ, obj);
            && (reply.Continue? <==>
                  && typ != "response.completed"
                  && (typ in TEXT_DELTAS + REASONING_DELTAS ==> Get(obj, "delta").Str?)
                  && (typ in ITEM_EVENTS ==> Announces(obj, {"message", "reasoning"}))
                  && (typ in PART_EVENTS ==> Announces(obj, {"output_text", "reasoning_text", "summary_text"})))
            && (reply.Complete? <==> typ == "response.completed" && OnCompleted(r, obj).Complete?)
            && (reply.Complete? ==> reply == OnCompleted(r, obj))
  {
    hide ScreenItem, Announces, OnCompleted;
    if typ in ITEM_EVENTS + PART_EVENTS { ItemExactly(typ, obj); }
    CompletesOnly(r, obj);
  }

  lemma CompletesOnly(r: ResponsesState, obj: Fields)
    ensures !OnCompleted(r, obj).Continue?
  {
    hide Gather, Truthy;
  }

  /** What one event does, told by the event alone. */
  lemma FeedExactly(r: ResponsesState, m: Message)
    ensures ResponsesFeed(r, m).Continue? <==> Passes(m)
    ensures ResponsesFeed(r, m).Complete?
       <==> Clean(m) && TypeOf(m).s == "response.completed" && OnCompleted(r, m.body.fields).Complete?
    ensures ResponsesFeed(r, m).Complete? ==> ResponsesFeed(r, m) == OnCompleted(r, m.body.fields)
  {
    hide ScreenType, Harmless, OnTyped, OnCompleted, Announces, Truthy;
    ScreenExactly(Str(m.name));
    if m.body.Object? {
      var typ := TypeOf(m);
      ScreenExactly(typ);
      if typ.Str? { TypedExactly(r, typ.s, m.body.fields); }
    }
  }

  lemma TypedGathers(r: ResponsesState, typ: string, obj: Fields)
    requires OnTyped(r, typ, obj).Continue?
    ensures OnTyped(r, typ, obj).state.reasoning
         == r.reasoning + if typ in REASONING_DELTAS && Get(obj, "delta").Str? then [Get(obj, "delta").s] else []
  {
    hide ScreenItem, OnCompleted;
    CompletesOnly(r, obj);
    assert r.reasoning + [] == r.reasoning;
  }

  lemma FeedGathers(r: ResponsesState, m: Message)
    requires ResponsesFeed(r, m).Continue?
    ensures ResponsesFeed(r, m).state.text == r.text + DeltaOf(m)
    ensures ResponsesFeed(r, m).state.reasoning == r.reasoning + ReasoningOf(m)
  {
    hide ScreenType, OnTyped, DeltaOf, REASONING_DELTAS;
    FeedCollects(r, m);
    ScreenExactly(TypeOf(m));
    TypedGathers(r, TypeOf(m).s, m.body.fields);
  }

  lemma {:induction false} RunExactly(r: ResponsesState, ms: seq<Message>)
    ensures Run(r, ms).Some? <==> AllPass(ms)
    ensures Run(r, ms).Some? ==>
              Run(r, ms).value == ResponsesState(r.text + Deltas(ms), r.reasoning + ReasoningDeltas(ms))
    decreases |ms|
  {
    hide ResponsesFeed, Passes, DeltaOf, ReasoningOf;
    if ms == [] {
      assert r.text + [] == r.text && r.reasoning + [] == r.reasoning;
    } else {
      FeedExactly(r, ms[0]);
      assert forall i | 0 <= i < |ms[1..]| :: ms[1..][i] == ms[i + 1];
      if ResponsesFeed(r, ms[0]).Continue? {
        FeedGathers(r, ms[0]);
        RunExactly(ResponsesFeed(r, ms[0]).state, ms[1..]);
        assert r.text + DeltaOf(ms[0]) + Deltas(ms[1..]) == r.text + (DeltaOf(ms[0]) + Deltas(ms[1..]));
        assert r.reasoning + ReasoningOf(ms[0]) + ReasoningDeltas(ms[1..])
            == r.reasoning + (ReasoningOf(ms[0]) + ReasoningDeltas(ms[1..]));
        assert AllPass(ms[1..]) && Passes(ms[0]) ==> AllPass(ms) by {
          forall i | 0 <= i < |ms| && AllPass(ms[1..]) && Passes(ms[0]) ensures Passes(ms[i]) {
            if i > 0 { assert ms[i] == ms[1..][i - 1]; }
          }
        }
      }
    }
  }

  /** An event list is answered exactly when every event in front passes and the last one closes. */
  lemma ResponsesCompleteExactly(front: seq<Message>, last: Message)
    ensures Run(RESPONSES_START, front).Some? && ResponsesFeed(Run(RESPONSES_START, front).value, last).Complete?
       <==> AllPass(front) && Closes(front, last)
  {
    hide Run, ResponsesFeed, OnCompleted, Clean, Passes, Completed;
    RunExactly(RESPONSES_START, front);
    if Run(RESPONSES_START, front).Some? {
      var r := Run(RESPONSES_START, front).value;
      assert [] + Deltas(front) == Deltas(front) && [] + ReasoningDeltas(front) == ReasoningDeltas(front);
      FeedExactly(r, last);
      CleanIsObject(last);
      if last.body.Object? { CompletedExactly(r, front, last.body.fields); }
    }
  }

  lemma CleanIsObject(m: Message)
    ensures Clean(m) ==> m.body.Object? && TypeOf(m).Str?
  {
  }
}
