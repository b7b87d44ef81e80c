/** The OpenAI Responses protocol of the stream assembler. */
module ResponsesApi {
  import opened Options
  import opened Json
  import opened StreamMessages

  datatype ResponsesState = ResponsesState(text: seq<string>, reasoning: seq<string>)

  datatype ResponsesAnswer = ResponsesAnswer(canonical: Fields)

  type ResponsesReply = Reply<ResponsesState, ResponsesAnswer>

  const RESPONSES_START := ResponsesState([], [])

  const KEPT: set<string> :=
    {"id", "object", "created_at", "model", "status", "output", "usage", "incomplete_details"}

  predicate ToolPart(part: string)
  {
    Contains(part, "tool") || Contains(part, "_call") || "mcp_" <= part
  }

  /** An event type that must never occur, checked on the event name and on the payload's own type. */
  function ScreenType(typ: Json): Verdict
  {
    if !typ.Str? then Bad(MalformedEvent)
    else if typ.s in {"error", "response.error", "response.failed"} then Bad(ProviderError)
    else if typ.s == "response.incomplete" then Bad(IncompleteResponse)
    else if AnyPart(typ.s, part => part == "refusal") then Bad(Refusal)
    else if AnyPart(typ.s, ToolPart) then Bad(ToolCall)
    else Fine
  }

  predicate TextBlocks(blocks: Json)
  {
    blocks.Arr? && forall i | 0 <= i < |blocks.items| ::
      blocks.items[i].Obj? && Get(blocks.items[i].fields, "type") == Str("output_text")
  }

  /** An output item or content part that is announced or finished. */
  function ScreenItem(typ: string, obj: Fields): Verdict
  {
    var item := GetOr(obj, "item", GetOr(obj, "part", Obj(map[])));
    var allowed := if Contains(typ, "output_item") then {"message", "reasoning"}
                   else {"output_text", "reasoning_text", "summary_text"};
    if !item.Obj? then Bad(UnsupportedOutput)
    else if !Hashable(Get(item.fields, "type")) then Error
    else if !IsOneOf(Get(item.fields, "type"), allowed) then Bad(UnsupportedOutput)
    else if Get(item.fields, "type") == Str("message") && !TextBlocks(GetOr(item.fields, "content", Arr([]))) then
      Bad(UnsupportedOutput)
    else Fine
  }

  /** The texts of an output's messages, or why it is refused. */
  datatype Gathered = Gathered(text: seq<string>, reasoning: seq<string>) | Spoiled(verdict: Verdict)

  /** The text parts of a message's content blocks. */
  function MessageText(blocks: seq<Json>): Option<seq<string>>
    decreases |blocks|
  {
    if blocks == [] then Some([])
    else if !blocks[0].Obj? || Get(blocks[0].fields, "type") != Str("output_text")
         || !Get(blocks[0].fields, "text").Str? then None
    else
      match MessageText(blocks[1..])
      case None => None
      case Some(rest) => Some([Get(blocks[0].fields, "text").s] + rest)
  }

  /** The texts of blocks that have one; reasoning summaries are collected that leniently. */
  function BlockTexts(blocks: seq<Json>): seq<string>
    decreases |blocks|
  {
    if blocks == [] then []
    else (if blocks[0].Obj? && Get(blocks[0].fields, "text").Str? then [Get(blocks[0].fields, "text").s] else [])
         + BlockTexts(blocks[1..])
  }

  function GatherItem(item: Json): Gathered
  {
    if !item.Obj? then Spoiled(Bad(MalformedResponse))
    else
      var kind := Get(item.fields, "type");
      if !Hashable(kind) then Spoiled(Error)
      else if !IsOneOf(kind, {"message", "reasoning"}) then Spoiled(Bad(UnsupportedOutput))
      else if Get(item.fields, "status") != Null && Get(item.fields, "status") != Str("completed") then
        Spoiled(Bad(IncompleteResponse))
      else if kind.s == "message" then
        var content := Get(item.fields, "content");
        if !content.Arr? then Spoiled(Bad(MalformedResponse))
        else
          match MessageText(content.items)
          case None => Spoiled(Bad(UnsupportedOutput))
          case Some(text) => Gathered(text, [])
      else
        match GetOr(item.fields, "summary", Arr([]))
        case Arr(items) => Gathered([], BlockTexts(items))
        case Str(_) => Gathered([], [])
        case Obj(_) => Gathered([], [])
        case _ => Spoiled(Error)  // iterating a number, a boolean or null is a TypeError
  }

  /** `for item in output`: the first offending item decides. */
  function Gather(output: seq<Json>): Gathered
    decreases |output|
  {
    if output == [] then Gathered([], [])
    else
      match GatherItem(output[0])
      case Spoiled(v) => Spoiled(v)
      case Gathered(text, reasoning) =>
        match Gather(output[1..])
        case Spoiled(v) => Spoiled(v)
        case Gathered(moreText, moreReasoning) => Gathered(text + moreText, reasoning + moreReasoning)
  }

  function Canonical(response: Fields): Fields
  {
    map key | key in response && key in KEPT :: response[key]
  }

  function OnCompleted(r: ResponsesState, obj: Fields): ResponsesReply
  {
    var response := Get(obj, "response");
    if !response.Obj? || Get(response.fields, "status") != Str("completed")
       || Truthy(Get(response.fields, "error")) || Truthy(Get(response.fields, "incomplete_details"))
    then Refused(IncompleteResponse)
    else if !Get(response.fields, "output").Arr? then Refused(MalformedResponse)
    else
      match Gather(Get(response.fields, "output").items)
      case Spoiled(v) => if v.Bad? then Refused(v.fault) else Raised
      case Gathered(text, reasoning) =>
        if text == [] then Refused(MissingOutputText)
        else
          var joined := Concat(text);
          if r.text != [] && joined != Concat(r.text) then Refused(DeltaMismatch)
          else if "output_text" in response.fields && response.fields["output_text"] != Str(joined) then
            Refused(DeltaMismatch)
          else if r.reasoning != [] && reasoning != [] && Concat(r.reasoning) != Concat(reasoning) then
            Refused(DeltaMismatch)
          else
            Complete(r, ResponsesAnswer(Canonical(response.fields)["output_text" := Str(joined)]))
  }

  function OnTyped(r: ResponsesState, typ: string, obj: Fields): ResponsesReply
  {
    if typ == "response.output_text.delta" || typ == "output_text.delta" then
      if !Get(obj, "delta").Str? then Refused(MalformedDelta)
      else Continue(r.(text := r.text + [Get(obj, "delta").s]))
    else if typ == "response.reasoning_text.delta" || typ == "response.reasoning_summary_text.delta" then
      if !Get(obj, "delta").Str? then Refused(MalformedDelta)
      else Continue(r.(reasoning := r.reasoning + [Get(obj, "delta").s]))
    else if typ in {"response.output_item.added", "response.output_item.done",
                    "response.content_part.added", "response.content_part.done"} then
      var screen := ScreenItem(typ, obj);
      if screen.Error? then Raised else if screen.Bad? then Refused(screen.fault) else Continue(r)
    else if typ == "response.completed" then OnCompleted(r, obj)
    else Continue(r)
  }

  /** One event, once the answer is not complete yet. */
  function ResponsesFeed(r: ResponsesState, m: Message): ResponsesReply
  {
    var named := ScreenType(Str(m.name));
    if named.Bad? then Refused(named.fault)
    else if !m.body.Object? then Refused(MalformedJson)
    else if Truthy(Get(m.body.fields, "error")) then Refused(ProviderError)
    else
      var typ := GetOr(m.body.fields, "type", Str(m.name));
      var screen := ScreenType(typ);
      if screen.Bad? then Refused(screen.fault) else OnTyped(r, typ.s, m.body.fields)
  }

  // ---------------------------------------------------------------------------------------------
  // What a completed answer says
  // ---------------------------------------------------------------------------------------------

  function TypeOf(m: Message): Json
  {
    if m.body.Object? then GetOr(m.body.fields, "type", Str(m.name)) else Null
  }

  /** The text delta an event carries, read off the event alone. */
  function DeltaOf(m: Message): seq<string>
  {
    if m.body.Object? && (TypeOf(m) == Str("response.output_text.delta") || TypeOf(m) == Str("output_text.delta"))
       && Get(m.body.fields, "delta").Str?
    then [Get(m.body.fields, "delta").s] else []
  }

  function Deltas(ms: seq<Message>): seq<string>
    decreases |ms|
  {
    if ms == [] then [] else DeltaOf(ms[0]) + Deltas(ms[1..])
  }

  /** The text blocks of the message items of an output, in order. */
  function OutputTexts(output: seq<Json>): seq<string>
    decreases |output|
  {
    if output == [] then []
    else (if output[0].Obj? && Get(output[0].fields, "type") == Str("message")
             && Get(output[0].fields, "content").Arr?
          then BlockTexts(Get(output[0].fields, "content").items) else [])
         + OutputTexts(output[1..])
  }

  lemma {:induction false} MessageTextIsBlockTexts(blocks: seq<Json>)
    ensures MessageText(blocks).Some? ==> MessageText(blocks).value == BlockTexts(blocks)
    decreases |blocks|
  {
    if blocks != [] { MessageTextIsBlockTexts(blocks[1..]); }
  }

  lemma {:induction false} GatheredTexts(output: seq<Json>)
    ensures Gather(output).Gathered? ==> Gather(output).text == OutputTexts(output)
    decreases |output|
  {
    if output != [] {
      GatheredTexts(output[1..]);
      if output[0].Obj? && Get(output[0].fields, "content").Arr? {
        MessageTextIsBlockTexts(Get(output[0].fields, "content").items);
      }
    }
  }

  /** The state after events that were all accepted and did not complete the answer. */
  function Run(r: ResponsesState, ms: seq<Message>): Option<ResponsesState>
    decreases |ms|
  {
    if ms == [] then Some(r)
    else
      match ResponsesFeed(r, ms[0])
      case Continue(next) => Run(next, ms[1..])
      case Complete(_, _) => None
      case Refused(_) => None
      case Raised => None
  }

  lemma FeedCollects(r: ResponsesState, m: Message)
    ensures ResponsesFeed(r, m).Continue? ==> ResponsesFeed(r, m).state.text == r.text + DeltaOf(m)
    ensures ResponsesFeed(r, m).Complete? ==> TypeOf(m) == Str("response.completed")
  {
    hide AnyPart, ScreenItem, Gather, Contains;
    assert r.text + [] == r.text;
  }

  lemma {:induction false} RunCollects(r: ResponsesState, ms: seq<Message>)
    requires Run(r, ms).Some?
    ensures Run(r, ms).value.text == r.text + Deltas(ms)
    decreases |ms|
  {
    hide ResponsesFeed, DeltaOf;
    if ms != [] {
      FeedCollects(r, ms[0]);
      RunCollects(ResponsesFeed(r, ms[0]).state, ms[1..]);
      assert r.text + DeltaOf(ms[0]) + Deltas(ms[1..]) == r.text + (DeltaOf(ms[0]) + Deltas(ms[1..]));
    }
  }

  /** A Responses answer comes only from a completed response event. Its `output_text` is the text of
      the response's message blocks, and it is also the text streamed before, whenever any was. */
  lemma ResponsesAnswerIsWhole(ms: seq<Message>, last: Message)
    requires Run(RESPONSES_START, ms).Some?
    requires ResponsesFeed(Run(RESPONSES_START, ms).value, last).Complete?
    ensures TypeOf(last) == Str("response.completed")
    ensures var answer := ResponsesFeed(Run(RESPONSES_START, ms).value, last).answer.canonical;
            var response := Get(last.body.fields, "response");
            && response.Obj? && Get(response.fields, "status") == Str("completed")
            && Get(response.fields, "output").Arr?
            && OutputTexts(Get(response.fields, "output").items) != []
            && "output_text" in answer
            && answer["output_text"] == Str(Concat(OutputTexts(Get(response.fields, "output").items)))
            && (Deltas(ms) != [] ==> answer["output_text"] == Str(Concat(Deltas(ms))))
            && (forall key | key in answer && key != "output_text" ::
                  key in KEPT && key in response.fields && answer[key] == response.fields[key])
  {
    hide ScreenType, ScreenItem;
    RunCollects(RESPONSES_START, ms);
    assert [] + Deltas(ms) == Deltas(ms);
    FeedCollects(Run(RESPONSES_START, ms).value, last);
    var response := Get(last.body.fields, "response");
    GatheredTexts(Get(response.fields, "output").items);
  }
}
