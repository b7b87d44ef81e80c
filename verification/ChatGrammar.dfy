/**
 Which event lists the Chat Completions protocol answers, read off the events alone, and what the
 answer then is.
 */
module ChatGrammar {
  import opened Options
  import opened Json
  import opened StreamMessages
  import opened ChatCompletions

  // ---------------------------------------------------------------------------------------------
  // Events
  // ---------------------------------------------------------------------------------------------

  /** No tool is called: the key is absent, null or, for the list, empty. */
  predicate NoTools(obj: Fields)
  {
    && (Get(obj, "tool_calls") == Null || Get(obj, "tool_calls") == Arr([]))
    && Get(obj, "function_call") == Null
  }

  /** If the key is there, its value is a text that is not blank. */
  predicate Names(obj: Fields, key: string)
  {
    key in obj ==> obj[key].Str? && exists c <- obj[key].s :: !Whitespace(c)
  }

  /** An object that announces no error, refusal or tool and whose identity and usage are well-formed. */
  predicate Clean(m: Message)
  {
    && m.name != "error" && m.name != "response.error" && m.body.Object?
    && var obj := m.body.fields;
       && Get(obj, "error") == Null
       && !Get(obj, "type").Arr? && !Get(obj, "type").Obj?
       && Get(obj, "type") != Str("error") && Get(obj, "type") != Str("response.error")
       && (Get(obj, "refusal") == Null || Get(obj, "refusal") == Str(""))
       && NoTools(obj) && Names(obj, "id") && Names(obj, "model")
       && (Get(obj, "usage") == Null || Get(obj, "usage").Obj?)
  }

  /** An event without choices, or one with an empty list of them and something under usage. */
  predicate Quiet(m: Message)
  {
    && m.body.Object?
    && var choices := Get(m.body.fields, "choices");
       choices == Null || (choices == Arr([]) && Get(m.body.fields, "usage") != Null)
  }

  /** Nothing, or a text. */
  predicate TextOrNull(j: Json) { j == Null || j.Str? }

  /** The reasoning of a delta, under either of its names. */
  function ReasoningIn(delta: Fields): Json
  {
    if "reasoning_content" in delta then delta["reasoning_content"]
    else if "reasoning" in delta then delta["reasoning"] else Null
  }

  /** A delta of texts: no refusal and no tools in it. */
  predicate Texts(delta: Fields)
  {
    && !Truthy(Get(delta, "refusal")) && NoTools(delta)
    && TextOrNull(Get(delta, "content")) && TextOrNull(ReasoningIn(delta))
  }

  /** One choice with index zero and a delta of texts, unfinished or finished with `stop`. */
  predicate Speaks(m: Message)
  {
    && m.body.Object?
    && var choices := Get(m.body.fields, "choices");
       && choices.Arr? && |choices.items| == 1 && choices.items[0].Obj?
       && var choice := choices.items[0].fields;
          && ("index" in choice ==> EqualsZero(choice["index"]))
          && ("delta" in choice ==> choice["delta"].Obj? && Texts(choice["delta"].fields))
          && (Get(choice, "finish_reason") == Null || Get(choice, "finish_reason") == Str("stop"))
  }

  predicate Finishes(m: Message)
  {
    Speaks(m) && Get(Get(m.body.fields, "choices").items[0].fields, "finish_reason") == Str("stop")
  }

  predicate HasFinished(ms: seq<Message>)
  {
    exists i | 0 <= i < |ms| :: Finishes(ms[i])
  }

  /** Before the finish an event is quiet or speaks; behind it there is nothing but usage. */
  predicate Placed(before: seq<Message>, m: Message)
  {
    if HasFinished(before) then UsageOnly(m) else Quiet(m) || Speaks(m)
  }

  /** Two events that both carry the key carry the same value under it. */
  predicate Agree(a: Message, b: Message, key: string)
  {
    && a.body.Object? && b.body.Object?
    && (key in a.body.fields && key in b.body.fields ==> a.body.fields[key] == b.body.fields[key])
  }

  /** Clean events, each in its place, of one id and one model. */
  predicate IsConversation(ms: seq<Message>)
  {
    && (forall i | 0 <= i < |ms| :: Clean(ms[i]) && Placed(ms[..i], ms[i]))
    && (forall i, j | 0 <= i < j < |ms| :: Agree(ms[i], ms[j], "id") && Agree(ms[i], ms[j], "model"))
  }

  /** A finished conversation and `[DONE]`. */
  predicate IsChat(ms: seq<Message>)
  {
    && ms != []
    && var front, last := ms[..|ms| - 1], ms[|ms| - 1];
       && IsConversation(front) && HasFinished(front)
       && last.body.Done? && last.name != "error" && last.name != "response.error"
  }

  // ---------------------------------------------------------------------------------------------
  // One event
  // ---------------------------------------------------------------------------------------------

  /** What was known of an identity key before agrees with the event. */
  predicate Known(meta: Fields, obj: Fields, key: string)
  {
    key in meta && key in obj ==> meta[key] == obj[key]
  }

  lemma IdentityExactly(meta: Fields, obj: Fields, key: string)
    ensures ScreenIdentity(meta, obj, key).Fine? <==> Names(obj, key) && Known(meta, obj, key)
    ensures !ScreenIdentity(meta, obj, key).Error?
  {
    if key in obj && obj[key].Str? {
      assert BlankString(obj[key].s) <==> !exists c <- obj[key].s :: !Whitespace(c);
    }
  }

  lemma EventExactly(obj: Fields)
    ensures ScreenEvent(obj).Fine?
       <==> && Get(obj, "error") == Null
            && !Get(obj, "type").Arr? && !Get(obj, "type").Obj?
            && Get(obj, "type") != Str("error") && Get(obj, "type") != Str("response.error")
            && (Get(obj, "refusal") == Null || Get(obj, "refusal") == Str("")) && NoTools(obj)
  {
  }

  lemma ChoiceExactly(c: ChatState, m: Message)
    requires m.body.Object? && c.finish == None
    ensures var choice := ChoiceOf(Get(m.body.fields, "choices"));
            Speaks(m) <==> choice.Some? && OnChoice(c, choice.value).Continue?
  {
  }

  /** The state an object is judged in once its identity and usage are noted. */
  function Noted(c: ChatState, obj: Fields): ChatState
  {
    c.(meta := LearnRest(Learn(Learn(c.meta, obj, "id"), obj, "model"), obj),
       usage := if Get(obj, "usage").Obj? then Some(Get(obj, "usage").fields) else c.usage)
  }

  /** What is left to decide once the event is clean and its identity known. */
  lemma PlaceExactly(c: ChatState, m: Message)
    requires m.body.Object? && !c.done && Clean(m)
    requires Known(c.meta, m.body.fields, "id") && Known(c.meta, m.body.fields, "model")
    ensures ChatFeed(c, m).Continue? <==> if c.finish.Some? then UsageOnly(m) else Quiet(m) || Speaks(m)
  {
    hide ScreenEvent, ScreenIdentity, OnChoice, Speaks, NoTools, Names, Learn, LearnRest;
    var obj := m.body.fields;
    EventFine(obj, m);
    IdentityExactly(c.meta, obj, "id");
    LearnsOnlyOwnKey(c.meta, obj);
    IdentityExactly(Learn(c.meta, obj, "id"), obj, "model");
    if c.finish == None { ChoiceExactly(Noted(c, obj), m); }
  }

  lemma EventFine(obj: Fields, m: Message)
    requires m.body == Object(obj) && Clean(m)
    ensures ScreenEvent(obj).Fine?
  {
    hide NoTools, Names;
    EventExactly(obj);
  }

  lemma NotCleanRefused(c: ChatState, m: Message)
    requires m.body.Object? && !c.done
    ensures ChatFeed(c, m).Continue? ==>
              Clean(m) && Known(c.meta, m.body.fields, "id") && Known(c.meta, m.body.fields, "model")
  {
    hide ScreenEvent, ScreenIdentity, OnChoice, ChoiceOf, NoTools, Names, Learn, LearnRest;
    var obj := m.body.fields;
    EventExactly(obj);
    IdentityExactly(c.meta, obj, "id");
    LearnsOnlyOwnKey(c.meta, obj);
    IdentityExactly(Learn(c.meta, obj, "id"), obj, "model");
  }

  lemma FeedExactly(c: ChatState, m: Message)
    requires m.body.Object? && !c.done
    ensures ChatFeed(c, m).Continue?
       <==> && Clean(m) && Known(c.meta, m.body.fields, "id") && Known(c.meta, m.body.fields, "model")
            && (if c.finish.Some? then UsageOnly(m) else Quiet(m) || Speaks(m))
  {
    hide ChatFeed, Clean, Speaks, Quiet, UsageOnly, Known;
    NotCleanRefused(c, m);
    if Clean(m) && Known(c.meta, m.body.fields, "id") && Known(c.meta, m.body.fields, "model") { PlaceExactly(c, m); }
  }

  lemma LearnsOnlyOwnKey(meta: Fields, obj: Fields)
    ensures Known(Learn(meta, obj, "id"), obj, "model") <==> Known(meta, obj, "model")
  {
    assert "id" != "model";
  }

  // ---------------------------------------------------------------------------------------------
  // Runs
  // ---------------------------------------------------------------------------------------------

  predicate Objects(ms: seq<Message>)
  {
    forall i | 0 <= i < |ms| :: ms[i].body.Object?
  }

  /** The event at `i` carries the key, and no earlier one does. */
  predicate FirstWith(ms: seq<Message>, key: string, i: nat)
    requires Objects(ms)
  {
    && i < |ms| && key in ms[i].body.fields
    && forall j | 0 <= j < i :: key !in ms[j].body.fields
  }

  /** What the run has learned under the key is what the first event that carried it had. */
  ghost predicate LearnedFirst(ms: seq<Message>, meta: Fields, key: string)
    requires Objects(ms)
  {
    && (key in meta <==> exists i: nat :: FirstWith(ms, key, i))
    && (forall i: nat | FirstWith(ms, key, i) :: key in meta && meta[key] == ms[i].body.fields[key])
  }

  const META_KEYS: set<string> := {"id", "model", "object", "created", "system_fingerprint"}

  ghost predicate AllLearned(ms: seq<Message>, meta: Fields)
    requires Objects(ms)
  {
    && meta.Keys <= META_KEYS
    && forall key | key in META_KEYS :: LearnedFirst(ms, meta, key)
  }

  /** The usage of the latest event that has one. */
  function LatestUsage(ms: seq<Message>): Option<Fields>
    decreases |ms|
  {
    if ms == [] then None
    else
      var last := ms[|ms| - 1];
      if last.body.Object? && Get(last.body.fields, "usage").Obj? then Some(Get(last.body.fields, "usage").fields)
      else LatestUsage(ms[..|ms| - 1])
  }

  predicate LearnsKey(before: Fields, obj: Fields, after: Fields, key: string)
  {
    && (key in after <==> key in before || key in obj)
    && (key in before ==> key in after && after[key] == before[key])
    && (key !in before && key in obj ==> key in after && after[key] == obj[key])
  }

  lemma NotedKey(meta: Fields, obj: Fields, key: string)
    requires Known(meta, obj, "id") && Known(meta, obj, "model") && key in META_KEYS
    ensures LearnsKey(meta, obj, LearnRest(Learn(Learn(meta, obj, "id"), obj, "model"), obj), key)
  {
  }

  lemma NotedOnly(meta: Fields, obj: Fields, key: string)
    requires key !in META_KEYS && key !in meta
    ensures key !in LearnRest(Learn(Learn(meta, obj, "id"), obj, "model"), obj)
  {
  }

  lemma ChoiceKeepsNotes(c: ChatState, choice: Fields)
    requires OnChoice(c, choice).Continue?
    ensures OnChoice(c, choice).state.meta == c.meta && OnChoice(c, choice).state.usage == c.usage
  {
    hide ScreenDelta;
  }

  lemma FeedNotes(c: ChatState, m: Message)
    requires ChatFeed(c, m).Continue?
    ensures m.body.Object?
    ensures ChatFeed(c, m).state.meta == Noted(c, m.body.fields).meta
    ensures ChatFeed(c, m).state.usage == Noted(c, m.body.fields).usage
  {
    hide ScreenEvent, ScreenIdentity, OnChoice, ChoiceOf, Learn, LearnRest;
    if m.body.Object? {
      var choice := ChoiceOf(Get(m.body.fields, "choices"));
      ChoiceNeverCompletes(Noted(c, m.body.fields));
      if choice.Some? && OnChoice(Noted(c, m.body.fields), choice.value).Continue? {
        ChoiceKeepsNotes(Noted(c, m.body.fields), choice.value);
      }
    }
  }

  lemma ChoiceNeverCompletes(c: ChatState)
    ensures forall choice :: !OnChoice(c, choice).Complete?
  {
    hide ScreenDelta;
  }

  lemma RunSnoc(front: seq<Message>, m: Message)
    ensures Run(CHAT_START, front + [m]) ==
            match Run(CHAT_START, front)
            case None => None
            case Some(c) =>
              (match ChatFeed(c, m)
               case Continue(next) => Some(next)
               case Complete(next, _) => Some(next)
               case Refused(_) => None
               case Raised => None)
  {
    hide ChatFeed;
    RunConcat(CHAT_START, front, [m]);
    assert [m][1..] == [];
    forall c: ChatState ensures Run(c, []) == Some(c) {}
  }

  lemma ConversationSnoc(front: seq<Message>, m: Message)
    ensures IsConversation(front + [m])
       <==> && IsConversation(front) && Clean(m) && Placed(front, m)
            && forall i | 0 <= i < |front| :: Agree(front[i], m, "id") && Agree(front[i], m, "model")
  {
    hide Clean, Placed, Agree;
    var ms := front + [m];
    assert ms[..|front|] == front && ms[|front|] == m;
    assert forall i | 0 <= i < |front| :: ms[i] == front[i] && ms[..i] == front[..i];
  }

  lemma FinishedSnoc(front: seq<Message>, m: Message)
    ensures HasFinished(front + [m]) <==> HasFinished(front) || Finishes(m)
  {
    hide Finishes;
    var ms := front + [m];
    assert forall i | 0 <= i < |front| :: ms[i] == front[i];
    assert ms[|front|] == m;
  }

  lemma FinishAgrees(m: Message)
    requires Quiet(m) || Speaks(m)
    ensures Finishes(m) <==> FinishOf(m) == Str("stop")
  {
  }

  /** What was learned agrees with an event exactly when every event so far does. */
  lemma KnownExactly(front: seq<Message>, meta: Fields, m: Message, key: string)
    requires Objects(front) && m.body.Object? && LearnedFirst(front, meta, key)
    requires forall i, j | 0 <= i < j < |front| :: Agree(front[i], front[j], key)
    ensures Known(meta, m.body.fields, key) <==> forall i | 0 <= i < |front| :: Agree(front[i], m, key)
  {
    if key in meta {
      var k: nat :| FirstWith(front, key, k);
      assert meta[key] == front[k].body.fields[key];
      forall i | 0 <= i < |front| && Known(meta, m.body.fields, key) ensures Agree(front[i], m, key) {
        if key in front[i].body.fields {
          assert i >= k;
          if i > k { assert Agree(front[k], front[i], key); }
        }
      }
      if forall i | 0 <= i < |front| :: Agree(front[i], m, key) { assert Agree(front[k], m, key); }
    } else {
      forall i | 0 <= i < |front| && key in front[i].body.fields ensures exists k: nat :: FirstWith(front, key, k) {
        SomeIsFirst(front, key, i);
      }
    }
  }

  lemma SomeIsFirst(ms: seq<Message>, key: string, i: nat)
    requires Objects(ms) && i < |ms| && key in ms[i].body.fields
    ensures exists k: nat :: FirstWith(ms, key, k)
    decreases i
  {
    if j :| 0 <= j < i && key in ms[j].body.fields {
      SomeIsFirst(ms, key, j);
    } else {
      assert FirstWith(ms, key, i);
    }
  }

  lemma LearnedSnoc(front: seq<Message>, m: Message, before: Fields, after: Fields, key: string)
    requires Objects(front) && m.body.Object?
    requires LearnedFirst(front, before, key) && LearnsKey(before, m.body.fields, after, key)
    ensures LearnedFirst(front + [m], after, key)
  {
    var ms := front + [m];
    assert forall i | 0 <= i < |front| :: ms[i] == front[i];
    assert ms[|front|] == m;
    if key in before {
      var k: nat :| FirstWith(front, key, k);
      assert FirstWith(ms, key, k);
      forall i: nat | FirstWith(ms, key, i) ensures i == k {}
    } else {
      forall i | 0 <= i < |front| && key in front[i].body.fields ensures exists k: nat :: FirstWith(front, key, k) {
        SomeIsFirst(front, key, i);
      }
      assert key in m.body.fields ==> FirstWith(ms, key, |front|);
      forall i: nat | FirstWith(ms, key, i) ensures i == |front| {}
    }
  }

  lemma AllLearnedSnoc(front: seq<Message>, m: Message, meta: Fields)
    requires Objects(front) && m.body.Object? && AllLearned(front, meta)
    requires Known(meta, m.body.fields, "id") && Known(meta, m.body.fields, "model")
    ensures AllLearned(front + [m], LearnRest(Learn(Learn(meta, m.body.fields, "id"), m.body.fields, "model"), m.body.fields))
  {
    hide LearnRest, Learn, Known, LearnedFirst, LearnsKey;
    var obj := m.body.fields;
    var after := LearnRest(Learn(Learn(meta, obj, "id"), obj, "model"), obj);
    forall key | key in META_KEYS ensures LearnedFirst(front + [m], after, key) {
      NotedKey(meta, obj, key);
      LearnedSnoc(front, m, meta, after, key);
    }
    forall key | key in after ensures key in META_KEYS {
      if key !in META_KEYS { NotedOnly(meta, obj, key); }
    }
  }

  /** What a run of events without `[DONE]` knows. */
  ghost predicate Heard(ms: seq<Message>, c: ChatState)
    requires Objects(ms)
  {
    && !c.done && c.finish == (if HasFinished(ms) then Some("stop") else None)
    && AllLearned(ms, c.meta) && c.usage == LatestUsage(ms)
  }

  lemma HeardSnoc(front: seq<Message>, m: Message, c: ChatState)
    requires Objects(front) && Heard(front, c) && IsConversation(front) && ChatFeed(c, m).Continue?
    ensures Objects(front + [m]) && Heard(front + [m], ChatFeed(c, m).state)
  {
    hide ChatFeed, AllLearned, HasFinished, Clean, Quiet, Speaks, UsageOnly, IsConversation, LearnRest, Learn, Finishes,
         FinishOf, DeltaOf;
    FeedNotes(c, m);
    FeedExactly(c, m);
    FeedCollects(c, m);
    AllLearnedSnoc(front, m, c.meta);
    FinishedSnoc(front, m);
    if c.finish == None { FinishAgrees(m); }
    assert (front + [m])[..|front|] == front;
  }

  /** Events without `[DONE]` are accepted exactly when they are a conversation. */
  lemma {:induction false} ConversationExactly(ms: seq<Message>)
    requires Objects(ms)
    ensures Run(CHAT_START, ms).Some? <==> IsConversation(ms)
    ensures Run(CHAT_START, ms).Some? ==> Heard(ms, Run(CHAT_START, ms).value)
    decreases |ms|
  {
    if ms != [] {
      hide ChatFeed, AllLearned, HasFinished, Clean, Quiet, Speaks, UsageOnly, IsConversation, Known, Agree, Run;
      var front, m := ms[..|ms| - 1], ms[|ms| - 1];
      assert ms == front + [m];
      ConversationExactly(front);
      RunSnoc(front, m);
      ConversationSnoc(front, m);
      if Run(CHAT_START, front).Some? {
        var c := Run(CHAT_START, front).value;
        StepExactly(front, m, c);
        if ChatFeed(c, m).Continue? { HeardSnoc(front, m, c); }
      }
    }
  }

  lemma StepExactly(front: seq<Message>, m: Message, c: ChatState)
    requires Objects(front) && m.body.Object? && Heard(front, c) && IsConversation(front)
    ensures ChatFeed(c, m).Continue?
       <==> && Clean(m) && Placed(front, m)
            && forall i | 0 <= i < |front| :: Agree(front[i], m, "id") && Agree(front[i], m, "model")
    ensures !ChatFeed(c, m).Complete?
  {
    hide ChatFeed, HasFinished, Clean, Quiet, Speaks, UsageOnly, Known, Agree, LearnedFirst;
    FeedExactly(c, m);
    FeedCollects(c, m);
    KnownExactly(front, c.meta, m, "id");
    KnownExactly(front, c.meta, m, "model");
  }

  lemma ConversationIsObjects(ms: seq<Message>)
    requires IsConversation(ms)
    ensures Objects(ms)
  {
    hide Placed, Agree, NoTools, Names;
  }

  lemma DoneExactly(c: ChatState, m: Message)
    requires !c.done && (c.finish.Some? ==> c.finish == Some("stop"))
    ensures var r := ChatFeed(c, m);
            r.Complete? <==> m.body.Done? && m.name != "error" && m.name != "response.error" && c.finish.Some?
    ensures ChatFeed(c, m).Complete? ==> ChatFeed(c, m).state == c.(done := true)
    ensures ChatFeed(c, m).Continue? ==> !ChatFeed(c, m).state.done
  {
    hide Learn, LearnRest;
    FeedCollects(c, m);
    hide OnObject;
  }

  /** Behind a conversation, the last event completes the answer exactly when it is `[DONE]` and the
      conversation is finished. */
  lemma LastExactly(front: seq<Message>, last: Message)
    requires Objects(front)
    ensures Run(CHAT_START, front + [last]).Some? && Run(CHAT_START, front + [last]).value.done
       <==> && IsConversation(front) && HasFinished(front)
            && last.body.Done? && last.name != "error" && last.name != "response.error"
    ensures Run(CHAT_START, front + [last]).Some? && Run(CHAT_START, front + [last]).value.done ==>
              var c := Run(CHAT_START, front + [last]).value;
              AllLearned(front, c.meta) && c.usage == LatestUsage(front)
  {
    hide AllLearned, HasFinished, IsConversation, Run, ChatFeed;
    RunSnoc(front, last);
    ConversationExactly(front);
    if Run(CHAT_START, front).Some? { DoneExactly(Run(CHAT_START, front).value, last); }
  }

  lemma DoneRunIsObjects(ms: seq<Message>)
    requires Run(CHAT_START, ms).Some? && Run(CHAT_START, ms).value.done
    ensures ms != [] && Objects(ms[..|ms| - 1])
  {
    hide Run, DeltaOf, FinishOf;
    var k := ChatAnswerIsWhole(ms);
  }

  /** A run is answered exactly when it is a finished conversation and `[DONE]`; the answer then has what
      the first event said of each key of the identity, and the latest usage. */
  lemma ChatCompletesExactly(ms: seq<Message>)
    ensures Run(CHAT_START, ms).Some? && Run(CHAT_START, ms).value.done <==> IsChat(ms)
    ensures IsChat(ms) ==>
              var front, c := ms[..|ms| - 1], Run(CHAT_START, ms).value;
              Objects(front) && AllLearned(front, c.meta) && c.usage == LatestUsage(front)
  {
    hide AllLearned, HasFinished, IsConversation, Run, Objects;
    if Run(CHAT_START, ms).Some? && Run(CHAT_START, ms).value.done { DoneRunIsObjects(ms); }
    if ms != [] {
      var front, last := ms[..|ms| - 1], ms[|ms| - 1];
      assert ms == front + [last];
      if IsChat(ms) { ConversationIsObjects(front); }
      if Objects(front) { LastExactly(front, last); }
    }
  }
}
