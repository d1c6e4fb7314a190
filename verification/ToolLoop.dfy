/** The agent's tool loop: a bounded number of model rounds, each followed by its tool results. */
module ToolLoop {
  import opened Prelude
  import opened Decimal
  import opened Transcripts
  import CallAssembly

  const MAX_TOOL_ROUNDS := 3
  const TOKENS_PER_K := 1000
  const PREVIEW_LIMIT := 200
  const TITLE_LIMIT := 30
  const UNTITLED := "新会话"

  /** What one model call streams back. */
  datatype LlmEvent = Text(text: string) | Calls(calls: seq<ToolCall>) | Failure(message: string) | Finished | Metering

  /** What the chat yields to the client. */
  datatype Event =
    | Delta(text: string) | ToolStarted(name: string, arguments: string)
    | ToolEnded(name: string, ok: bool, preview: string) | Done(title: Option<string>) | Error(message: string)

  /** The world outside: the model's stream for each round and each tool call's result or exception text;
      and the service's fixed wordings: an exception as a result, a result fenced off as untrusted data,
      and the sentence that closes a chat which ended on tools alone. */
  datatype Env = Env(
    stream: nat -> seq<LlmEvent>, tool: (nat, nat) -> Result<string, string>,
    render: string -> string, wrap: (string, string) -> string, closing: string)

  datatype Outcome = Outcome(events: seq<Event>, transcript: seq<Message>, modelCalls: nat)

  // ---------------------------------------------------------------- one stream

  /** The events read before the stream says it is finished. */
  function Heard(s: seq<LlmEvent>): seq<LlmEvent> {
    if s == [] || s[0].Finished? then [] else [s[0]] + Heard(s[1..])
  }

  function Deltas(s: seq<LlmEvent>): seq<Event> {
    if s == [] then [] else Deltas(s[..|s| - 1]) + if s[|s| - 1].Text? then [Delta(s[|s| - 1].text)] else []
  }

  function TextIn(s: seq<LlmEvent>): string {
    if s == [] then "" else TextIn(s[..|s| - 1]) + if s[|s| - 1].Text? then s[|s| - 1].text else ""
  }

  /** The last tool-call event wins. */
  function CallsIn(s: seq<LlmEvent>): seq<ToolCall> {
    if s == [] then [] else if s[|s| - 1].Calls? then s[|s| - 1].calls else CallsIn(s[..|s| - 1])
  }

  /** The last failure's message, empty when there was none. */
  function FailureIn(s: seq<LlmEvent>): string {
    if s == [] then "" else if s[|s| - 1].Failure? then s[|s| - 1].message else FailureIn(s[..|s| - 1])
  }

  // ---------------------------------------------------------------- call ids

  function FirstIndex(calls: seq<ToolCall>, c: ToolCall): (i: nat)
    requires c in calls
    ensures i < |calls| && calls[i] == c && c !in calls[..i]
  {
    if calls[0] == c then 0 else 1 + FirstIndex(calls[1..], c)
  }

  /** The id written on the assistant message. */
  function AskedId(calls: seq<ToolCall>, i: nat): string
    requires i < |calls|
  {
    if calls[i].id != "" then calls[i].id else "call_" + Digits(i)
  }

  /** The id written on the tool message: a missing id is rebuilt from the first equal call. */
  function AnsweredId(calls: seq<ToolCall>, i: nat): string
    requires i < |calls|
  {
    if calls[i].id != "" then calls[i].id else "call_" + Digits(FirstIndex(calls, calls[i]))
  }

  /** The two ids agree exactly when the call has an id of its own or is no repetition of an earlier one. */
  lemma IdsAgreeIff(calls: seq<ToolCall>, i: nat)
    requires i < |calls|
    ensures AskedId(calls, i) == AnsweredId(calls, i) <==> calls[i].id != "" || calls[i] !in calls[..i]
  {
    var f := FirstIndex(calls, calls[i]);
    if calls[i].id == "" {
      assert ("call_" + Digits(i))[5..] == Digits(i) && ("call_" + Digits(f))[5..] == Digits(f);
      if Digits(i) == Digits(f) {
        DigitsInjective(i, f);
      }
      if f < i {
        assert calls[..i][f] == calls[i];
      }
    }
  }

  // ---------------------------------------------------------------- one round's transcript

  function DefaultArguments(a: string): string {
    if a == "" then "{}" else a
  }

  function Asked(calls: seq<ToolCall>): (r: seq<ToolCall>)
    ensures |r| == |calls|
  {
    seq(|calls|, i requires 0 <= i < |calls| =>
      ToolCall(AskedId(calls, i), calls[i].name, DefaultArguments(calls[i].arguments)))
  }

  function Request(text: string, calls: seq<ToolCall>): Message {
    Assistant(if text == "" then None else Some(text), Asked(calls))
  }

  function ResultText(env: Env, round: nat, i: nat): string {
    match env.tool(round, i)
    case Ok(text) => text
    case Err(message) => env.render(message)
  }

  function Answer(env: Env, round: nat, calls: seq<ToolCall>, i: nat): Message
    requires i < |calls|
  {
    Tool(AnsweredId(calls, i), env.wrap(calls[i].name, ResultText(env, round, i)))
  }

  function Answers(env: Env, round: nat, calls: seq<ToolCall>): (r: seq<Message>)
    ensures |r| == |calls|
  {
    seq(|calls|, i requires 0 <= i < |calls| => Answer(env, round, calls, i))
  }

  /** What one round that asks for tools adds: the request and one answer per call. */
  function Block(env: Env, round: nat, text: string, calls: seq<ToolCall>): seq<Message> {
    [Request(text, calls)] + Answers(env, round, calls)
  }

  function Preview(s: string): string {
    if |s| <= PREVIEW_LIMIT then s else s[..PREVIEW_LIMIT]
  }

  function ToolEvents(env: Env, round: nat, calls: seq<ToolCall>, n: nat): seq<Event>
    requires n <= |calls|
  {
    if n == 0 then []
    else
      var c := calls[n - 1];
      ToolEvents(env, round, calls, n - 1)
      + [ToolStarted(c.name, c.arguments),
         ToolEnded(c.name, env.tool(round, n - 1).Ok?, Preview(ResultText(env, round, n - 1)))]
  }

  // ---------------------------------------------------------------- the whole chat

  predicate Space(c: char) {
    c == ' ' || c == '\t' || c == '\n' || c == '\r'
  }

  function StripLeft(s: string): string {
    if s != "" && Space(s[0]) then StripLeft(s[1..]) else s
  }

  function StripRight(s: string): string {
    if s != "" && Space(s[|s| - 1]) then StripRight(s[..|s| - 1]) else s
  }

  function Strip(s: string): string {
    StripRight(StripLeft(s))
  }

  function FirstUserText(history: seq<Message>): string {
    if history == [] then "" else if history[0].User? then OrEmpty(history[0].content) else FirstUserText(history[1..])
  }

  function OneLine(s: string): (r: string)
    ensures |r| == |s|
  {
    seq(|s|, i requires 0 <= i < |s| => if s[i] == '\n' then ' ' else s[i])
  }

  function Title(history: seq<Message>): string {
    var first := OneLine(Strip(FirstUserText(history)));
    if first == "" then UNTITLED else if |first| <= TITLE_LIMIT then first else first[..TITLE_LIMIT]
  }

  /** The closing events, from the text and calls of the last round. */
  function Ending(closing: string, text: string, calls: seq<ToolCall>, title: string): seq<Event> {
    (if Strip(text) == "" && calls != [] then [Delta(closing)] else []) + [Done(Some(title))]
  }

  function Then(events: seq<Event>, rest: Outcome): Outcome {
    rest.(events := events + rest.events, modelCalls := rest.modelCalls + 1)
  }

  /** Rounds `k` onwards, given the transcript so far and the last round's text and calls. */
  function From(env: Env, k: nat, transcript: seq<Message>, text: string, calls: seq<ToolCall>, title: string): Outcome
    decreases MAX_TOOL_ROUNDS - k
  {
    if k >= MAX_TOOL_ROUNDS then Outcome(Ending(env.closing, text, calls, title), transcript, 0)
    else
      var heard := Heard(env.stream(k));
      var said, asked := TextIn(heard), CallsIn(heard);
      if FailureIn(heard) != "" then Then(Deltas(heard), Outcome([Error(FailureIn(heard))], transcript, 0))
      else if asked == [] then Then(Deltas(heard), Outcome(Ending(env.closing, said, asked, title), transcript, 0))
      else
        Then(Deltas(heard) + ToolEvents(env, k, asked, |asked|),
             From(env, k + 1, transcript + [Request(said, asked)] + Answers(env, k, asked), said, asked, title))
  }

  function Chat(history: seq<Message>, enabled: bool, budgetK: int, todayTokens: int, summary: string, notice: string, env: Env)
    : Outcome
  {
    if history == [] then Outcome([Error("empty history")], [], 0)
    else if !enabled then Outcome([Delta(summary), Done(None)], history, 0)
    else if budgetK > 0 && todayTokens >= budgetK * TOKENS_PER_K then Outcome([Delta(notice), Done(None)], history, 0)
    else From(env, 0, history, "", [], Title(history))
  }

  lemma HeardOneMore(heard: seq<LlmEvent>, e: LlmEvent)
    ensures Deltas(heard + [e]) == Deltas(heard) + if e.Text? then [Delta(e.text)] else []
    ensures TextIn(heard + [e]) == TextIn(heard) + if e.Text? then e.text else ""
    ensures CallsIn(heard + [e]) == if e.Calls? then e.calls else CallsIn(heard)
    ensures FailureIn(heard + [e]) == if e.Failure? then e.message else FailureIn(heard)
  {
    assert (heard + [e])[..|heard|] == heard;
  }

  method Listen(stream: seq<LlmEvent>) returns (events: seq<Event>, text: string, calls: seq<ToolCall>, failure: string)
    ensures var heard := Heard(stream);
            events == Deltas(heard) && text == TextIn(heard) && calls == CallsIn(heard) && failure == FailureIn(heard)
  {
    events, text, calls, failure := [], "", [], "";
    var i := 0;
    ghost var heard: seq<LlmEvent> := [];
    while i < |stream| && !stream[i].Finished?
      invariant 0 <= i <= |stream| && heard + Heard(stream[i..]) == Heard(stream)
      invariant events == Deltas(heard) && text == TextIn(heard) && calls == CallsIn(heard) && failure == FailureIn(heard)
    {
      var e := stream[i];
      assert stream[i..][1..] == stream[i + 1..];
      HeardOneMore(heard, e);
      match e {
        case Text(t) =>
          text := text + t;
          events := events + [Delta(t)];
        case Calls(cs) => calls := cs;
        case Failure(m) => failure := m;
        case _ =>
      }
      heard := heard + [e];
      i := i + 1;
    }
    assert heard + [] == heard;
  }

  method RunTools(env: Env, round: nat, calls: seq<ToolCall>) returns (events: seq<Event>, answers: seq<Message>)
    ensures events == ToolEvents(env, round, calls, |calls|) && answers == Answers(env, round, calls)
  {
    events, answers := [], [];
    var i := 0;
    while i < |calls|
      invariant 0 <= i <= |calls|
      invariant events == ToolEvents(env, round, calls, i) && answers == Answers(env, round, calls)[..i]
    {
      var call := calls[i];
      var id := if call.id != "" then call.id else "call_" + Digits(FirstIndex(calls, call));
      events := events + [ToolStarted(call.name, call.arguments)];
      var outcome := env.tool(round, i);
      var text := if outcome.Ok? then outcome.value else env.render(outcome.error);
      events := events + [ToolEnded(call.name, outcome.Ok?, Preview(text))];
      OneMore(Answers(env, round, calls), i);
      answers := answers + [Tool(id, env.wrap(call.name, text))];
      i := i + 1;
    }
  }

  /** The bounded loop over model rounds. */
  method RunRounds(history: seq<Message>, title: string, env: Env)
    returns (events: seq<Event>, messages: seq<Message>, modelCalls: nat)
    ensures Outcome(events, messages, modelCalls) == From(env, 0, history, "", [], title)
  {
    events, messages, modelCalls := [], history, 0;
    var text, calls, round := "", [], 0;
    ghost var whole := From(env, 0, history, "", [], title);
    var stopped := false;
    while round < MAX_TOOL_ROUNDS && !stopped
      invariant round <= MAX_TOOL_ROUNDS
      invariant !stopped ==> whole == Prefixed(events, modelCalls, From(env, round, messages, text, calls, title))
      invariant stopped ==> whole == Outcome(events + Ending(env.closing, text, calls, title), messages, modelCalls)
      decreases MAX_TOOL_ROUNDS - round, !stopped
    {
      RoundUnfolds(env, round, events, modelCalls, messages, text, calls, title);
      var deltas, failure;
      deltas, text, calls, failure := Listen(env.stream(round));
      modelCalls := modelCalls + 1;
      if failure != "" {
        events := events + deltas + [Error(failure)];
        return;
      }
      if calls == [] {
        events := events + deltas;
        stopped := true;
      } else {
        var toolEvents, answers := RunTools(env, round, calls);
        events := events + deltas + toolEvents;
        messages := messages + [Request(text, calls)] + answers;
        round := round + 1;
      }
    }
    var closing := if Strip(text) == "" && calls != [] then [Delta(env.closing)] else [];
    assert closing + [Done(Some(title))] == Ending(env.closing, text, calls, title);
    events := events + (closing + [Done(Some(title))]);
  }

  /** One round of the loop, whatever came before it. */
  lemma RoundUnfolds(env: Env, k: nat, events: seq<Event>, made: nat, transcript: seq<Message>, text: string,
                     calls: seq<ToolCall>, title: string)
    requires k < MAX_TOOL_ROUNDS
    ensures var heard := Heard(env.stream(k));
            var said, asked := TextIn(heard), CallsIn(heard);
            Prefixed(events, made, From(env, k, transcript, text, calls, title))
            == if FailureIn(heard) != "" then Outcome(events + Deltas(heard) + [Error(FailureIn(heard))], transcript, made + 1)
               else if asked == [] then
                 Outcome(events + Deltas(heard) + Ending(env.closing, said, asked, title), transcript, made + 1)
               else
                 Prefixed(events + Deltas(heard) + ToolEvents(env, k, asked, |asked|), made + 1,
                          From(env, k + 1, transcript + [Request(said, asked)] + Answers(env, k, asked), said, asked, title))
  {
    var heard := Heard(env.stream(k));
    var said, asked := TextIn(heard), CallsIn(heard);
    if FailureIn(heard) != "" {
      PrefixedThen(events, made, Deltas(heard), Outcome([Error(FailureIn(heard))], transcript, 0));
    } else if asked == [] {
      PrefixedThen(events, made, Deltas(heard), Outcome(Ending(env.closing, said, asked, title), transcript, 0));
    } else {
      var rest := From(env, k + 1, transcript + [Request(said, asked)] + Answers(env, k, asked), said, asked, title);
      PrefixedThen(events, made, Deltas(heard) + ToolEvents(env, k, asked, |asked|), rest);
      ConcatAssociates(events, Deltas(heard), ToolEvents(env, k, asked, |asked|));
    }
  }

  function Prefixed(events: seq<Event>, modelCalls: nat, rest: Outcome): Outcome {
    Outcome(events + rest.events, rest.transcript, modelCalls + rest.modelCalls)
  }

  lemma PrefixedThen(a: seq<Event>, k: nat, b: seq<Event>, rest: Outcome)
    ensures Prefixed(a, k, Then(b, rest)) == Prefixed(a + b, k + 1, rest)
  {
    assert a + (b + rest.events) == a + b + rest.events;
  }

  /** `run_chat`: `summary` and `notice` are the texts of the two degraded modes. */
  method RunChat(history: seq<Message>, enabled: bool, budgetK: int, todayTokens: int, summary: string, notice: string, env: Env)
    returns (events: seq<Event>, messages: seq<Message>, modelCalls: nat)
    ensures Outcome(events, messages, modelCalls) == Chat(history, enabled, budgetK, todayTokens, summary, notice, env)
  {
    if history == [] {
      return [Error("empty history")], history, 0;
    }
    if !enabled {
      return [Delta(summary), Done(None)], history, 0;
    }
    if budgetK > 0 && todayTokens >= budgetK * TOKENS_PER_K {
      return [Delta(notice), Done(None)], history, 0;
    }
    events, messages, modelCalls := RunRounds(history, Title(history), env);
  }

  // ---------------------------------------------------------------- what one round hears, says and answers

  /** What is heard is everything before the first event that says the stream is finished. */
  lemma {:induction false} HeardIs(s: seq<LlmEvent>, n: nat)
    requires n <= |s| && (forall i :: 0 <= i < n ==> !s[i].Finished?) && (n < |s| ==> s[n].Finished?)
    ensures Heard(s) == s[..n]
  {
    if n > 0 {
      HeardIs(s[1..], n - 1);
      assert s[..n] == [s[0]] + s[1..][..n - 1];
    }
  }

  /** Texts are passed on one by one, and collected, in the order of arrival. */
  lemma {:induction false} TextsJoin(a: seq<LlmEvent>, b: seq<LlmEvent>)
    ensures Deltas(a + b) == Deltas(a) + Deltas(b) && TextIn(a + b) == TextIn(a) + TextIn(b)
  {
    if b == [] {
      assert a + b == a;
    } else {
      var front, last := b[..|b| - 1], b[|b| - 1];
      TextsJoin(a, front);
      HeardOneMore(a + front, last);
      ConcatAssociates(a, front, [last]);
      assert b == front + [last];
      ConcatAssociates(Deltas(a), Deltas(front), if last.Text? then [Delta(last.text)] else []);
      ConcatAssociates(TextIn(a), TextIn(front), if last.Text? then last.text else "");
    }
  }

  lemma TextIs(e: LlmEvent)
    ensures Deltas([e]) == if e.Text? then [Delta(e.text)] else []
    ensures TextIn([e]) == if e.Text? then e.text else ""
  {
    HeardOneMore([], e);
    assert [] + [e] == [e];
  }

  /** The last list of calls and the last failure are the ones that count. */
  lemma {:induction false} LastOneCounts(a: seq<LlmEvent>, e: LlmEvent, b: seq<LlmEvent>)
    ensures e.Calls? && (forall i :: 0 <= i < |b| ==> !b[i].Calls?) ==> CallsIn(a + [e] + b) == e.calls
    ensures e.Failure? && (forall i :: 0 <= i < |b| ==> !b[i].Failure?) ==> FailureIn(a + [e] + b) == e.message
  {
    if b == [] {
      assert a + [e] + b == a + [e];
      HeardOneMore(a, e);
    } else {
      var front, last := b[..|b| - 1], b[|b| - 1];
      LastOneCounts(a, e, front);
      ConcatAssociates(a + [e], front, [last]);
      assert b == front + [last];
      HeardOneMore(a + [e] + front, last);
    }
  }

  lemma {:induction false} NothingCounts(s: seq<LlmEvent>)
    ensures (forall i :: 0 <= i < |s| ==> !s[i].Calls?) ==> CallsIn(s) == []
    ensures (forall i :: 0 <= i < |s| ==> !s[i].Failure?) ==> FailureIn(s) == ""
  {
    if s != [] {
      NothingCounts(s[..|s| - 1]);
    }
  }

  lemma NotBefore(calls: seq<ToolCall>, c: ToolCall, n: nat)
    requires n <= |calls| && c !in calls[..n]
    ensures forall j :: 0 <= j < n ==> calls[j] != c
  {
    forall j | 0 <= j < n
      ensures calls[j] != c
    {
      assert calls[j] == calls[..n][j];
    }
  }

  /** Call `i` keeps its id; a call without one is asked under its own position, and answered under the position
      of the first call equal to it. */
  lemma IdsAre(calls: seq<ToolCall>, i: nat, first: nat)
    requires first <= i < |calls| && calls[first] == calls[i] && calls[i] !in calls[..first]
    ensures calls[i].id != "" ==> AskedId(calls, i) == calls[i].id == AnsweredId(calls, i)
    ensures calls[i].id == "" ==> AskedId(calls, i) == "call_" + Digits(i) && AnsweredId(calls, i) == "call_" + Digits(first)
  {
    NotBefore(calls, calls[i], first);
    NotBefore(calls, calls[i], FirstIndex(calls, calls[i]));
  }

  /** The request repeats the calls; what is missing is written as an empty object, and no text as none. */
  lemma RequestIs(text: string, calls: seq<ToolCall>, i: nat)
    requires i < |calls|
    ensures var r := Request(text, calls);
            && r.Assistant? && |r.calls| == |calls|
            && (text == "" ==> r.content == None) && (text != "" ==> r.content == Some(text))
            && r.calls[i].id == AskedId(calls, i) && r.calls[i].name == calls[i].name
            && (calls[i].arguments == "" ==> r.calls[i].arguments == "{}")
            && (calls[i].arguments != "" ==> r.calls[i].arguments == calls[i].arguments)
  {
  }

  /** Each call is announced, run and reported in turn; its answer holds its own result, or the exception it
      raised, and the report the first 200 characters of that. */
  lemma {:induction false} CallIsAnswered(env: Env, round: nat, calls: seq<ToolCall>, n: nat, i: nat, text: string)
    requires i < n <= |calls|
    requires match env.tool(round, i) case Ok(result) => text == result case Err(error) => text == env.render(error)
    ensures Answers(env, round, calls)[i] == Tool(AnsweredId(calls, i), env.wrap(calls[i].name, text))
    ensures var es := ToolEvents(env, round, calls, n);
            && |es| == 2 * n
            && es[2 * i] == ToolStarted(calls[i].name, calls[i].arguments)
            && es[2 * i + 1] == ToolEnded(calls[i].name, env.tool(round, i).Ok?, if |text| > 200 then text[..200] else text)
  {
    ToolEventsLength(env, round, calls, n - 1);
    if i < n - 1 {
      CallIsAnswered(env, round, calls, n - 1, i, text);
    }
  }

  lemma {:induction false} ToolEventsLength(env: Env, round: nat, calls: seq<ToolCall>, n: nat)
    requires n <= |calls|
    ensures |ToolEvents(env, round, calls, n)| == 2 * n
  {
    if n > 0 {
      ToolEventsLength(env, round, calls, n - 1);
    }
  }

  // ---------------------------------------------------------------- what a whole chat says

  /** Round `r` asks for tools and does not fail. */
  ghost predicate GoesOn(env: Env, r: nat) {
    FailureIn(Heard(env.stream(r))) == "" && CallsIn(Heard(env.stream(r))) != []
  }

  /** What the first `n` rounds yield, and what they add to the transcript. */
  function Yielded(env: Env, n: nat): seq<Event> {
    if n == 0 then []
    else
      var heard := Heard(env.stream(n - 1));
      Yielded(env, n - 1) + (Deltas(heard) + ToolEvents(env, n - 1, CallsIn(heard), |CallsIn(heard)|))
  }

  function Added(env: Env, n: nat): seq<Message> {
    if n == 0 then []
    else
      var heard := Heard(env.stream(n - 1));
      Added(env, n - 1) + ([Request(TextIn(heard), CallsIn(heard))] + Answers(env, n - 1, CallsIn(heard)))
  }

  /** The chat after `n` asking rounds: it stops at the limit, at a failure, or at a round that asks for nothing. */
  function Stopped(env: Env, n: nat, text: string, calls: seq<ToolCall>, title: string): seq<Event> {
    if n >= MAX_TOOL_ROUNDS then Ending(env.closing, text, calls, title)
    else
      var heard := Heard(env.stream(n));
      Deltas(heard) + if FailureIn(heard) != "" then [Error(FailureIn(heard))] else [Done(Some(title))]
  }

  ghost predicate StopsAt(env: Env, k: nat, n: nat) {
    k <= n <= MAX_TOOL_ROUNDS && (forall r :: k <= r < n ==> GoesOn(env, r)) && (n < MAX_TOOL_ROUNDS ==> !GoesOn(env, n))
  }

  lemma {:induction false} RoundsAre(env: Env, k: nat, n: nat, transcript: seq<Message>, text: string, calls: seq<ToolCall>, title: string)
    requires StopsAt(env, k, n)
    ensures var o := From(env, k, transcript, text, calls, title);
            var said := if k == n then text else TextIn(Heard(env.stream(n - 1)));
            var asked := if k == n then calls else CallsIn(Heard(env.stream(n - 1)));
            && Yielded(env, k) + o.events == Yielded(env, n) + Stopped(env, n, said, asked, title)
            && o.modelCalls == n - k + if n < MAX_TOOL_ROUNDS then 1 else 0
    decreases n - k
  {
    if k < n {
      assert GoesOn(env, k);
      var heard := Heard(env.stream(k));
      var said, asked := TextIn(heard), CallsIn(heard);
      var next := transcript + [Request(said, asked)] + Answers(env, k, asked);
      RoundsAre(env, k + 1, n, next, said, asked, title);
      ConcatAssociates(Yielded(env, k), Deltas(heard) + ToolEvents(env, k, asked, |asked|),
                       From(env, k + 1, next, said, asked, title).events);
    } else if n < MAX_TOOL_ROUNDS {
      assert Ending(env.closing, TextIn(Heard(env.stream(n))), [], title) == [Done(Some(title))];
    }
  }

  lemma {:induction false} TranscriptIs(
      env: Env, k: nat, n: nat, base: seq<Message>, transcript: seq<Message>, text: string, calls: seq<ToolCall>, title: string)
    requires StopsAt(env, k, n) && transcript == base + Added(env, k)
    ensures From(env, k, transcript, text, calls, title).transcript == base + Added(env, n)
    decreases n - k
  {
    if k < n {
      assert GoesOn(env, k);
      var heard := Heard(env.stream(k));
      var said, asked := TextIn(heard), CallsIn(heard);
      RequestAdded(base, Added(env, k), Request(said, asked), Answers(env, k, asked));
      TranscriptIs(env, k + 1, n, base, transcript + [Request(said, asked)] + Answers(env, k, asked), said, asked, title);
    }
  }

  lemma RequestAdded(a: seq<Message>, b: seq<Message>, request: Message, answers: seq<Message>)
    ensures a + b + [request] + answers == a + (b + ([request] + answers))
  {
  }

  /** The first round that fails or asks for nothing, or the limit. */
  function StopOf(env: Env, k: nat): (n: nat)
    requires k <= MAX_TOOL_ROUNDS
    ensures StopsAt(env, k, n)
    decreases MAX_TOOL_ROUNDS - k
  {
    if k < MAX_TOOL_ROUNDS && FailureIn(Heard(env.stream(k))) == "" && CallsIn(Heard(env.stream(k))) != []
    then StopOf(env, k + 1) else k
  }

  lemma ChatStoppingAt(
      history: seq<Message>, budgetK: int, todayTokens: int, summary: string, notice: string, env: Env, n: nat)
    requires history != [] && (budgetK <= 0 || todayTokens < budgetK * 1000) && StopsAt(env, 0, n)
    ensures var o := Chat(history, true, budgetK, todayTokens, summary, notice, env);
            && o.transcript == history + Added(env, n)
            && o.modelCalls == (if n < 3 then n + 1 else 3)
            && o.events == Yielded(env, n) + Tail(env, n, Title(history))
  {
    RoundsAre(env, 0, n, history, "", [], Title(history));
    assert history + Added(env, 0) == history;
    TranscriptIs(env, 0, n, history, history, "", [], Title(history));
    var o := From(env, 0, history, "", [], Title(history));
    assert Yielded(env, 0) + o.events == o.events;
    if n == MAX_TOOL_ROUNDS {
      assert GoesOn(env, n - 1);
      StrippedIsEmptyIff(TextIn(Heard(env.stream(n - 1))));
    }
  }

  /** A chat that is neither refused nor degraded stops at the first round that fails or asks for nothing, at the
      latest after three: that many model calls; every round's texts and tool events in order; a failure as the last
      event, or the title, after a closing sentence when three rounds of tools ended without a word. */
  lemma ChatIs(history: seq<Message>, budgetK: int, todayTokens: int, summary: string, notice: string, env: Env)
    returns (n: nat)
    requires history != [] && (budgetK <= 0 || todayTokens < budgetK * 1000)
    ensures n <= 3 && forall r :: 0 <= r < n ==> FailureIn(Heard(env.stream(r))) == "" && CallsIn(Heard(env.stream(r))) != []
    ensures n < 3 ==> FailureIn(Heard(env.stream(n))) != "" || CallsIn(Heard(env.stream(n))) == []
    ensures var o := Chat(history, true, budgetK, todayTokens, summary, notice, env);
            && o.transcript == history + Added(env, n)
            && o.modelCalls == (if n < 3 then n + 1 else 3)
            && o.events == Yielded(env, n) + Tail(env, n, Title(history))
  {
    n := StopOf(env, 0);
    ChatStoppingAt(history, budgetK, todayTokens, summary, notice, env, n);
    forall r | 0 <= r < n
      ensures FailureIn(Heard(env.stream(r))) == "" && CallsIn(Heard(env.stream(r))) != []
    {
      assert GoesOn(env, r);
    }
  }

  /** How a chat ends that stops at round `n`. */
  ghost function Tail(env: Env, n: nat, title: string): seq<Event> {
    if n < 3 then
      var heard := Heard(env.stream(n));
      Deltas(heard) + [if FailureIn(heard) != "" then Error(FailureIn(heard)) else Done(Some(title))]
    else
      (if Blank(TextIn(Heard(env.stream(2)))) then [Delta(env.closing)] else []) + [Done(Some(title))]
  }

  ghost predicate Blank(s: string) {
    forall i :: 0 <= i < |s| ==> Space(s[i])
  }

  lemma BlankCons(s: string, a: nat)
    requires 1 <= a <= |s|
    ensures Blank(s[..a]) <==> Space(s[0]) && Blank(s[1..][..a - 1])
  {
    var rest := s[1..][..a - 1];
    assert s[..a] == [s[0]] + rest;
    assert forall i :: 0 <= i < |rest| ==> ([s[0]] + rest)[i + 1] == rest[i];
  }

  lemma {:induction false} StripLeftIs(s: string, a: nat)
    requires a <= |s| && Blank(s[..a]) && (a < |s| ==> !Space(s[a]))
    ensures StripLeft(s) == s[a..]
  {
    if a > 0 {
      BlankCons(s, a);
      StripLeftIs(s[1..], a - 1);
    }
  }

  lemma {:induction false} StripRightIs(s: string, b: nat)
    requires b <= |s| && Blank(s[b..]) && (b > 0 ==> !Space(s[b - 1]))
    ensures StripRight(s) == s[..b]
  {
    if b < |s| {
      var n := |s| - 1;
      assert Space(s[b..][n - b]);
      assert forall i :: 0 <= i < n - b ==> s[..n][b..][i] == s[b..][i];
      StripRightIs(s[..n], b);
    }
  }

  /** Spaces, tabs and line ends are stripped, and nothing else. */
  lemma SpaceIs(c: char)
    ensures Space(c) <==> c in " \t\n\r"
  {
    assert " \t\n\r" == [' ', '\t', '\n', '\r'];
  }

  /** Stripping removes the blanks at both ends and no others. */
  lemma StripIs(s: string, a: nat, b: nat)
    requires a <= b <= |s| && Blank(s[..a]) && Blank(s[b..])
    requires if a < b then !Space(s[a]) && !Space(s[b - 1]) else b == |s|
    ensures Strip(s) == s[a..b]
  {
    StripLeftIs(s, a);
    assert s[a..][b - a..] == s[b..];
    StripRightIs(s[a..], b - a);
  }

  function Leading(s: string): (a: nat)
    ensures a <= |s| && Blank(s[..a]) && (a < |s| ==> !Space(s[a]))
  {
    if s != "" && Space(s[0]) then
      var a := 1 + Leading(s[1..]);
      BlankCons(s, a);
      a
    else 0
  }

  lemma {:induction false} StripRightKeepsFirst(s: string)
    requires s != "" && !Space(s[0])
    ensures StripRight(s) != ""
  {
    if Space(s[|s| - 1]) {
      StripRightKeepsFirst(s[..|s| - 1]);
    }
  }

  lemma StrippedIsEmptyIff(s: string)
    ensures Strip(s) == "" <==> Blank(s)
  {
    var a := Leading(s);
    StripLeftIs(s, a);
    if a < |s| {
      StripRightKeepsFirst(s[a..]);
    } else {
      assert s[..a] == s;
    }
  }

  /** The title is the first user message, stripped and on one line, cut after thirty characters. */
  lemma TitleIs(history: seq<Message>, i: nat)
    requires i < |history| && history[i].User? && forall j :: 0 <= j < i ==> !history[j].User?
    ensures var text := if history[i].content.Some? then history[i].content.value else "";
            var stripped, title := Strip(text), Title(history);
            && (Blank(text) ==> title == "新会话")
            && (!Blank(text) ==>
                  && |title| == (if |stripped| < 30 then |stripped| else 30)
                  && forall k :: 0 <= k < |title| ==> title[k] == if stripped[k] == '\n' then ' ' else stripped[k])
  {
    FirstUserIs(history, i);
    StrippedIsEmptyIff(FirstUserText(history));
  }

  lemma {:induction false} FirstUserIs(history: seq<Message>, i: nat)
    requires i < |history| && history[i].User? && forall j :: 0 <= j < i ==> !history[j].User?
    ensures FirstUserText(history) == OrEmpty(history[i].content)
  {
    if i > 0 {
      FirstUserIs(history[1..], i - 1);
    }
  }

  /** A chat with no user message has no title of its own. */
  lemma {:induction false} UntitledWithoutUser(history: seq<Message>)
    requires forall j :: 0 <= j < |history| ==> !history[j].User?
    ensures FirstUserText(history) == "" && Title(history) == "新会话"
  {
    if history != [] {
      UntitledWithoutUser(history[1..]);
    }
  }

  /** Chats that never reach the model. */
  lemma EarlyExits(history: seq<Message>, enabled: bool, budgetK: int, todayTokens: int, summary: string, notice: string, env: Env)
    ensures var o := Chat(history, enabled, budgetK, todayTokens, summary, notice, env);
            && (history == [] ==> o == Outcome([Error("empty history")], [], 0))
            && (history != [] && !enabled ==> o == Outcome([Delta(summary), Done(None)], history, 0))
            && (history != [] && enabled && budgetK > 0 && todayTokens >= budgetK * 1000 ==>
                  o == Outcome([Delta(notice), Done(None)], history, 0))
  {
  }

  // ---------------------------------------------------------------- what every run satisfies

  predicate Final(e: Event) {
    e.Done? || e.Error?
  }

  /** Exactly one closing event, at the very end. */
  ghost predicate EndsOnce(events: seq<Event>) {
    events != [] && Final(events[|events| - 1]) && forall i :: 0 <= i < |events| - 1 ==> !Final(events[i])
  }

  lemma {:induction false} DeltasNeverClose(s: seq<LlmEvent>)
    ensures forall i :: 0 <= i < |Deltas(s)| ==> !Final(Deltas(s)[i])
  {
    if s != [] {
      DeltasNeverClose(s[..|s| - 1]);
    }
  }

  lemma {:induction false} ToolEventsNeverClose(env: Env, round: nat, calls: seq<ToolCall>, n: nat)
    requires n <= |calls|
    ensures forall i :: 0 <= i < |ToolEvents(env, round, calls, n)| ==> !Final(ToolEvents(env, round, calls, n)[i])
  {
    if n > 0 {
      ToolEventsNeverClose(env, round, calls, n - 1);
    }
  }

  /** A round is reached when every earlier one asked for tools and did not fail. */
  ghost predicate Reached(env: Env, from: nat, r: nat) {
    forall q :: from <= q < r ==> FailureIn(Heard(env.stream(q))) == "" && CallsIn(Heard(env.stream(q))) != []
  }

  ghost predicate SomeRoundFails(env: Env, from: nat) {
    exists r :: from <= r < MAX_TOOL_ROUNDS && Reached(env, from, r) && FailureIn(Heard(env.stream(r))) != ""
  }

  lemma CloseAfter(a: seq<Event>, b: seq<Event>)
    requires EndsOnce(b) && forall i :: 0 <= i < |a| ==> !Final(a[i])
    ensures EndsOnce(a + b) && (a + b)[|a + b| - 1] == b[|b| - 1]
  {
  }

  lemma EndingClosesOnce(closing: string, text: string, calls: seq<ToolCall>, title: string)
    ensures EndsOnce(Ending(closing, text, calls, title))
    ensures Ending(closing, text, calls, title)[|Ending(closing, text, calls, title)| - 1].Done?
  {
  }

  /** What is claimed of the rounds from `k` on. */
  ghost predicate WellEnded(env: Env, k: nat, o: Outcome)
    requires k <= MAX_TOOL_ROUNDS
  {
    && EndsOnce(o.events) && o.modelCalls <= MAX_TOOL_ROUNDS - k
    && (o.events[|o.events| - 1].Error? <==> SomeRoundFails(env, k))
  }

  lemma RoundThenRest(env: Env, k: nat, rest: Outcome)
    requires k < MAX_TOOL_ROUNDS && WellEnded(env, k + 1, rest)
    requires FailureIn(Heard(env.stream(k))) == "" && CallsIn(Heard(env.stream(k))) != []
    ensures var asked := CallsIn(Heard(env.stream(k)));
            WellEnded(env, k, Then(Deltas(Heard(env.stream(k))) + ToolEvents(env, k, asked, |asked|), rest))
  {
    var heard := Heard(env.stream(k));
    var asked := CallsIn(heard);
    DeltasNeverClose(heard);
    ToolEventsNeverClose(env, k, asked, |asked|);
    FailureFromNext(env, k);
    CloseAfter(Deltas(heard) + ToolEvents(env, k, asked, |asked|), rest.events);
  }

  lemma LastRound(env: Env, k: nat, transcript: seq<Message>, said: string, title: string)
    requires k < MAX_TOOL_ROUNDS
    ensures var heard := Heard(env.stream(k));
            FailureIn(heard) != "" ==>
              WellEnded(env, k, Then(Deltas(heard), Outcome([Error(FailureIn(heard))], transcript, 0)))
    ensures var heard := Heard(env.stream(k));
            FailureIn(heard) == "" && CallsIn(heard) == [] ==>
              WellEnded(env, k, Then(Deltas(heard), Outcome(Ending(env.closing, said, [], title), transcript, 0)))
  {
    var heard := Heard(env.stream(k));
    DeltasNeverClose(heard);
    if FailureIn(heard) != "" {
      assert Reached(env, k, k);
      CloseAfter(Deltas(heard), [Error(FailureIn(heard))]);
    } else if CallsIn(heard) == [] {
      StopsHere(env, k);
      EndingClosesOnce(env.closing, said, [], title);
      CloseAfter(Deltas(heard), Ending(env.closing, said, [], title));
    }
  }

  lemma {:induction false} RoundsEndOnce(env: Env, k: nat, transcript: seq<Message>, text: string, calls: seq<ToolCall>, title: string)
    requires k <= MAX_TOOL_ROUNDS
    ensures WellEnded(env, k, From(env, k, transcript, text, calls, title))
    decreases MAX_TOOL_ROUNDS - k
  {
    if k >= MAX_TOOL_ROUNDS {
      EndingClosesOnce(env.closing, text, calls, title);
    } else {
      var heard := Heard(env.stream(k));
      var said, asked := TextIn(heard), CallsIn(heard);
      if FailureIn(heard) != "" || asked == [] {
        LastRound(env, k, transcript, said, title);
      } else {
        var next := transcript + [Request(said, asked)] + Answers(env, k, asked);
        RoundsEndOnce(env, k + 1, next, said, asked, title);
        RoundThenRest(env, k, From(env, k + 1, next, said, asked, title));
      }
    }
  }

  lemma StopsHere(env: Env, k: nat)
    requires FailureIn(Heard(env.stream(k))) == "" && CallsIn(Heard(env.stream(k))) == []
    ensures !SomeRoundFails(env, k)
  {
    forall r | k <= r < MAX_TOOL_ROUNDS && Reached(env, k, r)
      ensures r == k
    {
      assert r == k || k <= k < r;
    }
  }

  lemma FailureFromNext(env: Env, k: nat)
    requires k < MAX_TOOL_ROUNDS && FailureIn(Heard(env.stream(k))) == "" && CallsIn(Heard(env.stream(k))) != []
    ensures SomeRoundFails(env, k) <==> SomeRoundFails(env, k + 1)
  {
    if SomeRoundFails(env, k + 1) {
      var r :| k + 1 <= r < MAX_TOOL_ROUNDS && Reached(env, k + 1, r) && FailureIn(Heard(env.stream(r))) != "";
      assert Reached(env, k, r);
    }
    if SomeRoundFails(env, k) {
      var r :| k <= r < MAX_TOOL_ROUNDS && Reached(env, k, r) && FailureIn(Heard(env.stream(r))) != "";
      assert Reached(env, k + 1, r);
    }
  }

  /** Every chat makes at most three model calls and closes with exactly one final event. Past the early
      exits that event is an error exactly when a round that was reached failed with a non-empty message;
      a failure whose message is empty is taken for success. */
  lemma EveryChatEndsOnce(
      history: seq<Message>, enabled: bool, budgetK: int, todayTokens: int, summary: string, notice: string, env: Env)
    ensures var o := Chat(history, enabled, budgetK, todayTokens, summary, notice, env);
            && o.modelCalls <= 3
            && o.events != [] && (o.events[|o.events| - 1].Done? || o.events[|o.events| - 1].Error?)
            && (forall i :: 0 <= i < |o.events| - 1 ==> !o.events[i].Done? && !o.events[i].Error?)
            && (history != [] && enabled && !(budgetK > 0 && todayTokens >= budgetK * TOKENS_PER_K) ==>
                  (o.events[|o.events| - 1].Error? <==> SomeRoundFails(env, 0)))
  {
    RoundsEndOnce(env, 0, history, "", [], Title(history));
  }

  /** No call of any round repeats an earlier call that has no id. */
  ghost predicate Identified(calls: seq<ToolCall>) {
    forall i :: 0 <= i < |calls| ==> calls[i].id != "" || calls[i] !in calls[..i]
  }

  /** The calls the loop receives from an assembled stream. */
  function Received(fragments: seq<CallAssembly.Fragment>): (calls: seq<ToolCall>)
    ensures |calls| == |CallAssembly.Assembled(fragments)|
  {
    ToolCallsOf(CallAssembly.Assembled(fragments))
  }

  function ToolCallsOf(cs: seq<CallAssembly.Call>): (calls: seq<ToolCall>)
    ensures |calls| == |cs|
    ensures forall i :: 0 <= i < |cs| ==> calls[i] == ToolCall(cs[i].id, cs[i].name, cs[i].arguments)
  {
    seq(|cs|, i requires 0 <= i < |cs| => ToolCall(cs[i].id, cs[i].name, cs[i].arguments))
  }

  /** Calls assembled from stream fragments are always identifiable, so their rounds are always paired. */
  lemma AssembledRoundIsPaired<J>(
      env: Env, round: nat, text: string, fragments: seq<CallAssembly.Fragment>, parse: string -> Option<J>, empty: J)
    requires fragments != []
    ensures Identified(Received(fragments))
    ensures Paired(Trace(Block(env, round, text, Received(fragments)), parse, empty))
  {
    var calls := Received(fragments);
    forall i | 0 <= i < |calls|
      ensures calls[i].id != ""
    {
      CallAssembly.CallsHaveIds(fragments, i);
    }
    assert |CallAssembly.Order(fragments)| > 0;
    RoundIsPairedIff(env, round, text, calls, parse, empty);
  }

  lemma OneDelivery<J>(env: Env, round: nat, calls: seq<ToolCall>, n: nat, parse: string -> Option<J>, empty: J)
    requires n < |calls|
    ensures var answers := Answers(env, round, calls);
            Trace(answers[..n + 1], parse, empty)
            == Trace(answers[..n], parse, empty)
               + [Delivers(AnsweredId(calls, n), env.wrap(calls[n].name, ResultText(env, round, n)))]
  {
    TraceOneMore(Answers(env, round, calls), n, parse, empty);
  }

  ghost predicate Deliveries<J>(ts: seq<Turn<J>>, calls: seq<ToolCall>, n: nat)
    requires n <= |calls|
  {
    |ts| == n && forall i :: 0 <= i < n ==> ts[i].Delivers? && ts[i].id == AnsweredId(calls, i)
  }

  lemma {:induction false} DeliveriesOf<J>(env: Env, round: nat, calls: seq<ToolCall>, n: nat, parse: string -> Option<J>, empty: J)
    requires n <= |calls|
    ensures Deliveries(Trace(Answers(env, round, calls)[..n], parse, empty), calls, n)
  {
    if n > 0 {
      DeliveriesOf(env, round, calls, n - 1, parse, empty);
      OneDelivery(env, round, calls, n - 1, parse, empty);
    }
  }

  lemma IdsAgreeEverywhereIff(calls: seq<ToolCall>)
    ensures (forall i :: 0 <= i < |calls| ==> AskedId(calls, i) == AnsweredId(calls, i)) <==> Identified(calls)
  {
    forall i | 0 <= i < |calls|
      ensures AskedId(calls, i) == AnsweredId(calls, i) <==> calls[i].id != "" || calls[i] !in calls[..i]
    {
      IdsAgreeIff(calls, i);
    }
  }

  /** One request followed by as many deliveries is paired exactly when the ids match in order. */
  lemma BlockIsPairedIff<J>(text: string, us: seq<Use<J>>, ds: seq<Turn<J>>)
    requires |ds| == |us|
    ensures Paired([Asks(text, us)] + ds) <==> forall i :: 0 <= i < |us| ==> ds[i].Delivers? && ds[i].id == us[i].id
  {
    var ts := [Asks(text, us)] + ds;
    var answers, rest := ts[1..1 + |us|], ts[1 + |us|..];
    assert ts[0] == Asks(text, us) && answers == ds && rest == [];
    assert Paired(ts) <==> Answered(us, answers) && Paired(rest);
  }

  lemma AnswersMatchIff<J>(env: Env, round: nat, calls: seq<ToolCall>, us: seq<Use<J>>, ds: seq<Turn<J>>)
    requires |us| == |ds| == |calls|
    requires forall i :: 0 <= i < |calls| ==>
               us[i].id == AskedId(calls, i) && ds[i].Delivers? && ds[i].id == AnsweredId(calls, i)
    ensures Answered(us, ds) <==> Identified(calls)
  {
    IdsAgreeEverywhereIff(calls);
    if Answered(us, ds) {
      forall i | 0 <= i < |calls|
        ensures AskedId(calls, i) == AnsweredId(calls, i)
      {
        assert ds[i].id == us[i].id;
      }
    }
  }

  /** One round appends a request and its answers; they are paired exactly when no id is ambiguous. */
  lemma RoundIsPairedIff<J>(env: Env, round: nat, text: string, calls: seq<ToolCall>, parse: string -> Option<J>, empty: J)
    requires calls != []
    ensures Paired(Trace(Block(env, round, text, calls), parse, empty)) <==> Identified(calls)
  {
    var request, answers := Request(text, calls), Answers(env, round, calls);
    TraceAppend([request], answers, parse, empty);
    TraceOfOne(request, parse, empty);
    DeliveriesOf(env, round, calls, |calls|, parse, empty);
    assert answers[..|calls|] == answers;
    var us, ds := UsesOf(Asked(calls), parse, empty), Trace(answers, parse, empty);
    BlockIsPairedIff(OrEmpty(request.content), us, ds);
    AnswersMatchIff(env, round, calls, us, ds);
  }

  /** A round that asked for tools: what was said and what was asked. */
  datatype Round = Round(said: string, asked: seq<ToolCall>)

  /** The rounds from `k` on that ask for tools, up to the first that fails or asks for none. */
  function Asking(env: Env, k: nat): seq<Round>
    decreases MAX_TOOL_ROUNDS - k
  {
    if k >= MAX_TOOL_ROUNDS then []
    else
      var heard := Heard(env.stream(k));
      if FailureIn(heard) != "" || CallsIn(heard) == [] then []
      else [Round(TextIn(heard), CallsIn(heard))] + Asking(env, k + 1)
  }

  /** One block per asking round. */
  function BlocksOf(env: Env, k: nat, rounds: seq<Round>): seq<Message>
    decreases |rounds|
  {
    if rounds == [] then [] else Block(env, k, rounds[0].said, rounds[0].asked) + BlocksOf(env, k + 1, rounds[1..])
  }

  lemma {:induction false} AskingRoundsAsk(env: Env, k: nat)
    requires forall r :: 0 <= r < MAX_TOOL_ROUNDS ==> Identified(CallsIn(Heard(env.stream(r))))
    ensures forall i :: 0 <= i < |Asking(env, k)| ==> Asking(env, k)[i].asked != [] && Identified(Asking(env, k)[i].asked)
    decreases MAX_TOOL_ROUNDS - k
  {
    if k < MAX_TOOL_ROUNDS {
      AskingRoundsAsk(env, k + 1);
    }
  }

  lemma BlocksAssociate(a: seq<Message>, request: Message, answers: seq<Message>, rest: seq<Message>)
    ensures a + [request] + answers + rest == a + ([request] + answers + rest)
  {
  }

  /** The final transcript is what came in, followed by one block per round that asked for tools. */
  lemma {:induction false} TranscriptIsBlocks(
      env: Env, k: nat, transcript: seq<Message>, text: string, calls: seq<ToolCall>, title: string)
    ensures From(env, k, transcript, text, calls, title).transcript == transcript + BlocksOf(env, k, Asking(env, k))
    decreases MAX_TOOL_ROUNDS - k
  {
    if k >= MAX_TOOL_ROUNDS {
      assert transcript + [] == transcript;
    } else {
      var heard := Heard(env.stream(k));
      var said, asked := TextIn(heard), CallsIn(heard);
      if FailureIn(heard) != "" || asked == [] {
        assert transcript + [] == transcript;
      } else {
        var request, answers := Request(said, asked), Answers(env, k, asked);
        TranscriptIsBlocks(env, k + 1, transcript + [request] + answers, said, asked, title);
        assert Asking(env, k)[1..] == Asking(env, k + 1);
        BlocksAssociate(transcript, request, answers, BlocksOf(env, k + 1, Asking(env, k + 1)));
      }
    }
  }

  lemma PairedBlockThen<J>(
      env: Env, k: nat, said: string, asked: seq<ToolCall>, rest: seq<Message>, parse: string -> Option<J>, empty: J)
    requires asked != [] && Identified(asked) && Paired(Trace(rest, parse, empty))
    ensures Paired(Trace(Block(env, k, said, asked) + rest, parse, empty))
  {
    RoundIsPairedIff(env, k, said, asked, parse, empty);
    PairedConcat(Block(env, k, said, asked), rest, parse, empty);
  }

  lemma {:induction false} BlocksArePaired<J>(env: Env, k: nat, rounds: seq<Round>, parse: string -> Option<J>, empty: J)
    requires forall i :: 0 <= i < |rounds| ==> rounds[i].asked != [] && Identified(rounds[i].asked)
    ensures Paired(Trace(BlocksOf(env, k, rounds), parse, empty))
    decreases |rounds|
  {
    if rounds != [] {
      BlocksArePaired(env, k + 1, rounds[1..], parse, empty);
      PairedBlockThen(env, k, rounds[0].said, rounds[0].asked, BlocksOf(env, k + 1, rounds[1..]), parse, empty);
    }
  }

  lemma PairedConcat<J>(a: seq<Message>, b: seq<Message>, parse: string -> Option<J>, empty: J)
    requires Paired(Trace(a, parse, empty)) && Paired(Trace(b, parse, empty))
    ensures Paired(Trace(a + b, parse, empty))
  {
    TraceAppend(a, b, parse, empty);
    PairedAppend(Trace(a, parse, empty), Trace(b, parse, empty));
  }

  lemma {:induction false} HistoryIsPaired<J>(history: seq<Message>, parse: string -> Option<J>, empty: J)
    requires forall i :: 0 <= i < |history| ==> history[i].User? || (history[i].Assistant? && history[i].calls == [])
    ensures Paired(Trace(history, parse, empty))
  {
    if history != [] {
      var n := |history| - 1;
      HistoryIsPaired(history[..n], parse, empty);
      TraceOneMore(history, n, parse, empty);
      assert history[..n + 1] == history;
      var last := TurnOf(history[n], parse, empty);
      assert last[1..] == [];
      PairedAppend(Trace(history[..n], parse, empty), last);
    }
  }

  /** From a history of plain turns, and a model whose calls are identifiable, every chat extends the
      history by paired blocks only, so the translated transcript pairs every request with its results. */
  lemma EveryChatIsPaired<J>(
      history: seq<Message>, enabled: bool, budgetK: int, todayTokens: int, summary: string, notice: string, env: Env,
      parse: string -> Option<J>, empty: J)
    requires forall i :: 0 <= i < |history| ==> history[i].User? || (history[i].Assistant? && history[i].calls == [])
    requires forall r :: 0 <= r < MAX_TOOL_ROUNDS ==> Identified(CallsIn(Heard(env.stream(r))))
    ensures var o := Chat(history, enabled, budgetK, todayTokens, summary, notice, env);
            (o.transcript == history || o.transcript == history + BlocksOf(env, 0, Asking(env, 0)))
            && Paired(Trace(o.transcript, parse, empty))
  {
    HistoryIsPaired(history, parse, empty);
    TranscriptIsBlocks(env, 0, history, "", [], Title(history));
    AskingRoundsAsk(env, 0);
    BlocksArePaired(env, 0, Asking(env, 0), parse, empty);
    PairedConcat(history, BlocksOf(env, 0, Asking(env, 0)), parse, empty);
  }

  // ---------------------------------------------------------------- rounds streamed by the chat-completions reader

  /** What the streaming reader yields, as the loop hears it. */
  function Relayed(e: CallAssembly.Event): LlmEvent {
    match e
    case Delta(text) => LlmEvent.Text(text)
    case UsageReport(_) => Metering
    case ToolCalls(calls) => Calls(ToolCallsOf(calls))
    case Done => Finished
    case Failed(message) => Failure(message)
  }

  function Relay(es: seq<CallAssembly.Event>): (s: seq<LlmEvent>)
    ensures |s| == |es| && forall i :: 0 <= i < |es| ==> s[i] == Relayed(es[i])
  {
    seq(|es|, i requires 0 <= i < |es| => Relayed(es[i]))
  }

  function StreamOf(cs: seq<CallAssembly.Chunk>, ending: CallAssembly.Ending): seq<LlmEvent> {
    Relay(CallAssembly.Streamed(cs, ending))
  }

  /** The connection failed before the model finished its turn. */
  predicate CutShort(cs: seq<CallAssembly.Chunk>, ending: CallAssembly.Ending) {
    ending.Breaks? && !CallAssembly.Finishes(cs)
  }

  ghost predicate OnlyTextAndUsage(s: seq<LlmEvent>) {
    forall i :: 0 <= i < |s| ==> s[i].Text? || s[i].Metering?
  }

  lemma {:induction false} HeardBefore(a: seq<LlmEvent>, b: seq<LlmEvent>)
    requires OnlyTextAndUsage(a)
    ensures Heard(a + b) == a + Heard(b)
  {
    if a == [] {
      assert a + b == b;
    } else {
      HeardBefore(a[1..], b);
      assert (a + b)[1..] == a[1..] + b;
    }
  }

  lemma {:induction false} ReportsAskNothing(s: seq<LlmEvent>)
    requires OnlyTextAndUsage(s)
    ensures CallsIn(s) == [] && FailureIn(s) == ""
  {
    if s != [] {
      ReportsAskNothing(s[..|s| - 1]);
    }
  }

  lemma AfterReports(a: seq<LlmEvent>, e: LlmEvent)
    requires OnlyTextAndUsage(a)
    ensures CallsIn(a + [e]) == (if e.Calls? then e.calls else [])
    ensures FailureIn(a + [e]) == (if e.Failure? then e.message else "")
  {
    ReportsAskNothing(a);
    assert (a + [e])[..|a|] == a;
  }

  lemma RelayAppend(a: seq<CallAssembly.Event>, b: seq<CallAssembly.Event>)
    ensures Relay(a + b) == Relay(a) + Relay(b)
  {
  }

  lemma ReportsRelay(cs: seq<CallAssembly.Chunk>)
    ensures OnlyTextAndUsage(Relay(CallAssembly.Reported(cs)))
  {
    forall i | 0 <= i < |CallAssembly.Reported(cs)|
      ensures CallAssembly.Reported(cs)[i].Delta? || CallAssembly.Reported(cs)[i].UsageReport?
    {
      CallAssembly.OnlyReports(cs, i);
    }
  }

  lemma CutShortIsHeard(reported: seq<CallAssembly.Event>, message: string)
    requires OnlyTextAndUsage(Relay(reported))
    ensures var heard := Heard(Relay(reported + [CallAssembly.Failed(message)]));
            FailureIn(heard) == message && CallsIn(heard) == []
  {
    var reports := Relay(reported);
    RelayAppend(reported, [CallAssembly.Failed(message)]);
    assert Relay([CallAssembly.Failed(message)]) == [Failure(message)];
    assert Heard([Failure(message)]) == [Failure(message)];
    HeardBefore(reports, [Failure(message)]);
    AfterReports(reports, Failure(message));
  }

  lemma DoneIsHeard(reported: seq<CallAssembly.Event>)
    requires OnlyTextAndUsage(Relay(reported))
    ensures var heard := Heard(Relay(reported + [CallAssembly.Done]));
            FailureIn(heard) == "" && CallsIn(heard) == []
  {
    var reports := Relay(reported);
    RelayAppend(reported, [CallAssembly.Done]);
    assert Relay([CallAssembly.Done]) == [Finished];
    HeardBefore(reports, [Finished]);
    assert reports + [] == reports;
    ReportsAskNothing(reports);
  }

  lemma CallsAreHeard(reported: seq<CallAssembly.Event>, calls: seq<CallAssembly.Call>)
    requires OnlyTextAndUsage(Relay(reported))
    ensures var heard := Heard(Relay(reported + ([CallAssembly.ToolCalls(calls)] + [CallAssembly.Done])));
            FailureIn(heard) == "" && CallsIn(heard) == ToolCallsOf(calls)
  {
    var reports, asked := Relay(reported), Calls(ToolCallsOf(calls));
    var rest := [CallAssembly.ToolCalls(calls)] + [CallAssembly.Done];
    RelayAppend(reported, rest);
    assert Relay(rest) == [asked] + [Finished];
    assert ([asked] + [Finished])[1..] == [Finished];
    assert Heard([asked] + [Finished]) == [asked];
    HeardBefore(reports, [asked] + [Finished]);
    AfterReports(reports, asked);
  }

  /** What the loop takes from one streamed round: the failure of a round cut short, and otherwise exactly the
      assembled calls. */
  lemma StreamedRoundIsHeard(cs: seq<CallAssembly.Chunk>, ending: CallAssembly.Ending)
    ensures var heard, fs := Heard(StreamOf(cs, ending)), CallAssembly.FragmentsOf(CallAssembly.Read(cs));
            && FailureIn(heard) == (if CutShort(cs, ending) then ending.message else "")
            && CallsIn(heard) == (if CutShort(cs, ending) || fs == [] then [] else Received(fs))
  {
    var seen := CallAssembly.Read(cs);
    ReportsRelay(seen);
    if CutShort(cs, ending) {
      CutShortIsHeard(CallAssembly.Reported(seen), ending.message);
    } else if CallAssembly.FragmentsOf(seen) == [] {
      assert CallAssembly.Conclusion(seen) == [CallAssembly.Done];
      DoneIsHeard(CallAssembly.Reported(seen));
    } else {
      CallsAreHeard(CallAssembly.Reported(seen), CallAssembly.Assembled(CallAssembly.FragmentsOf(seen)));
    }
  }

  lemma StreamedRoundIsIdentified(cs: seq<CallAssembly.Chunk>, ending: CallAssembly.Ending)
    ensures Identified(CallsIn(Heard(StreamOf(cs, ending))))
  {
    var fs := CallAssembly.FragmentsOf(CallAssembly.Read(cs));
    StreamedRoundIsHeard(cs, ending);
    forall i | 0 <= i < |Received(fs)|
      ensures Received(fs)[i].id != ""
    {
      CallAssembly.CallsHaveIds(fs, i);
    }
  }

  /** Every chat over streamed rounds is paired, whatever arrives on the wire. */
  lemma EveryStreamedChatIsPaired<J>(
      history: seq<Message>, enabled: bool, budgetK: int, todayTokens: int, summary: string, notice: string, env: Env,
      chunks: nat -> seq<CallAssembly.Chunk>, ending: nat -> CallAssembly.Ending, parse: string -> Option<J>, empty: J)
    requires forall i :: 0 <= i < |history| ==> history[i].User? || (history[i].Assistant? && history[i].calls == [])
    requires forall r :: 0 <= r < MAX_TOOL_ROUNDS ==> env.stream(r) == StreamOf(chunks(r), ending(r))
    ensures Paired(Trace(Chat(history, enabled, budgetK, todayTokens, summary, notice, env).transcript, parse, empty))
  {
    forall r | 0 <= r < MAX_TOOL_ROUNDS
      ensures Identified(CallsIn(Heard(env.stream(r))))
    {
      StreamedRoundIsIdentified(chunks(r), ending(r));
    }
    EveryChatIsPaired(history, enabled, budgetK, todayTokens, summary, notice, env, parse, empty);
  }

  /** A first round cut short ends the chat after one model call; the client is told of an error exactly when the
      transport's message is not empty, and is otherwise told that all is done. */
  lemma CutShortIsErrorIff(
      history: seq<Message>, budgetK: int, todayTokens: int, summary: string, notice: string, env: Env,
      cs: seq<CallAssembly.Chunk>, ending: CallAssembly.Ending)
    requires history != [] && !(budgetK > 0 && todayTokens >= budgetK * TOKENS_PER_K)
    requires env.stream(0) == StreamOf(cs, ending) && CutShort(cs, ending)
    ensures var o := Chat(history, true, budgetK, todayTokens, summary, notice, env);
            && o.modelCalls == 1 && o.events != []
            && o.events[|o.events| - 1] == if ending.message != "" then Error(ending.message) else Done(Some(Title(history)))
  {
    StreamedRoundIsHeard(cs, ending);
  }
}
