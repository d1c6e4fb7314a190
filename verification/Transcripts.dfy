/** Chat transcripts in the two wire formats, and the translation between them. */
module Transcripts {
  import opened Prelude

  datatype ToolCall = ToolCall(id: string, name: string, arguments: string)

  /** OpenAI-style messages. Roles the translation does not know are `Other`. */
  datatype Message =
    | User(content: Option<string>)
    | Assistant(content: Option<string>, calls: seq<ToolCall>)
    | Tool(callId: string, result: string)
    | Other

  datatype Block<J> = Text(text: string) | ToolUse(id: string, name: string, input: J) | ToolResult(id: string, content: string)

  /** Anthropic-style messages: plain text or content blocks, from the user or the assistant. */
  datatype AMessage<J> = Plain(fromUser: bool, text: string) | Blocks(fromUser: bool, blocks: seq<Block<J>>)

  // ---------------------------------------------------------------- what a reader of either format sees

  datatype Use<J> = Use(id: string, name: string, input: J)

  /** A turn speaks, asks for tool results, or delivers one result. */
  datatype Turn<J> = Says(fromUser: bool, text: string) | Asks(text: string, uses: seq<Use<J>>) | Delivers(id: string, content: string)

  function OrEmpty(s: Option<string>): string {
    if s.Some? then s.value else ""
  }

  /** The JSON arguments of a call; unreadable text becomes the empty object. */
  function InputOf<J>(arguments: string, parse: string -> Option<J>, empty: J): J {
    var parsed := parse(if arguments == "" then "{}" else arguments);
    if parsed.Some? then parsed.value else empty
  }

  function UsesOf<J>(calls: seq<ToolCall>, parse: string -> Option<J>, empty: J): (us: seq<Use<J>>)
    ensures |us| == |calls|
  {
    seq(|calls|, i requires 0 <= i < |calls| => Use(calls[i].id, calls[i].name, InputOf(calls[i].arguments, parse, empty)))
  }

  function TurnOf<J>(m: Message, parse: string -> Option<J>, empty: J): seq<Turn<J>> {
    match m
    case User(content) => [Says(true, OrEmpty(content))]
    case Assistant(content, calls) =>
      if calls == [] then [Says(false, OrEmpty(content))] else [Asks(OrEmpty(content), UsesOf(calls, parse, empty))]
    case Tool(id, content) => [Delivers(id, content)]
    case Other => []
  }

  function Turns<J>(ms: seq<Message>, parse: string -> Option<J>, empty: J): (ts: seq<seq<Turn<J>>>)
    ensures |ts| == |ms|
  {
    seq(|ms|, i requires 0 <= i < |ms| => TurnOf(ms[i], parse, empty))
  }

  /** The whole transcript, turn by turn. */
  function Trace<J>(ms: seq<Message>, parse: string -> Option<J>, empty: J): seq<Turn<J>> {
    Flatten(Turns(ms, parse, empty))
  }

  function UsesIn<J>(bs: seq<Block<J>>): seq<Use<J>> {
    if bs == [] then []
    else
      var front, last := UsesIn(bs[..|bs| - 1]), bs[|bs| - 1];
      if last.ToolUse? then front + [Use(last.id, last.name, last.input)] else front
  }

  /** Read off the Anthropic side alone, without looking at how it was made. */
  function ATurnOf<J>(a: AMessage<J>): Turn<J> {
    match a
    case Plain(u, text) => Says(u, text)
    case Blocks(u, bs) =>
      if u then (if bs != [] && bs[0].ToolResult? then Delivers(bs[0].id, bs[0].content) else Says(true, ""))
      else Asks(if bs != [] && bs[0].Text? then bs[0].text else "", UsesIn(bs))
  }

  function ATrace<J>(ms: seq<AMessage<J>>): seq<Turn<J>> {
    if ms == [] then [] else ATrace(ms[..|ms| - 1]) + [ATurnOf(ms[|ms| - 1])]
  }

  /** Every request for results is followed at once by exactly one result per id, in order, and results
      appear nowhere else. */
  ghost predicate Paired<J>(ts: seq<Turn<J>>)
    decreases |ts|
  {
    ts != [] ==>
      match ts[0]
      case Says(_, _) => Paired(ts[1..])
      case Delivers(_, _) => false
      case Asks(_, us) => |us| < |ts| && Answered(us, ts[1..1 + |us|]) && Paired(ts[1 + |us|..])
  }

  ghost predicate Answered<J>(us: seq<Use<J>>, ts: seq<Turn<J>>)
    requires |us| == |ts|
  {
    forall i :: 0 <= i < |us| ==> ts[i].Delivers? && ts[i].id == us[i].id
  }

  // ---------------------------------------------------------------- OpenAI to Anthropic

  lemma ATraceAppend<J>(ms: seq<AMessage<J>>, a: AMessage<J>)
    ensures ATrace(ms + [a]) == ATrace(ms) + [ATurnOf(a)]
  {
    assert (ms + [a])[..|ms|] == ms;
  }

  /** The text, unless it is missing or empty, and one block per call with its parsed arguments. */
  ghost predicate RendersCalls<J>(bs: seq<Block<J>>, content: Option<string>, calls: seq<ToolCall>, parse: string -> Option<J>, empty: J) {
    var lead := if content.Some? && content.value != "" then 1 else 0;
    && |bs| == lead + |calls|
    && (lead == 1 ==> bs[0] == Text(content.value))
    && forall i :: 0 <= i < |calls| ==> RendersCall(bs[lead + i], calls[i], parse, empty)
  }

  /** Missing arguments are read as an empty object; so are arguments that are no JSON. */
  ghost predicate RendersCall<J>(b: Block<J>, c: ToolCall, parse: string -> Option<J>, empty: J) {
    && b.ToolUse? && b.id == c.id && b.name == c.name
    && match parse(if |c.arguments| == 0 then "{}" else c.arguments)
       case Some(v) => b.input == v
       case None => b.input == empty
  }

  /** How one message is written in the other format. */
  ghost predicate Renders<J>(a: AMessage<J>, m: Message, parse: string -> Option<J>, empty: J) {
    match m
    case User(Some(text)) => a == Plain(true, text)
    case User(None) => a == Plain(true, "")
    case Assistant(content, calls) =>
      if calls != [] then a.Blocks? && !a.fromUser && RendersCalls(a.blocks, content, calls, parse, empty)
      else a == Plain(false, if content.Some? then content.value else "")
    case Tool(id, result) => a == Blocks(true, [ToolResult(id, result)])
    case Other => false
  }

  /** The number of messages that have a translation. */
  function Known(ms: seq<Message>): nat {
    if ms == [] then 0 else Known(ms[..|ms| - 1]) + if ms[|ms| - 1].Other? then 0 else 1
  }

  /** The first `n` messages of known roles stand at their places, rendered. */
  ghost predicate Rendered<J>(out: seq<AMessage<J>>, ms: seq<Message>, n: nat, parse: string -> Option<J>, empty: J)
    requires n <= |ms|
  {
    forall j :: 0 <= j < n && !ms[j].Other? ==> RenderedAt(out, Known(ms[..j]), ms[j], parse, empty)
  }

  ghost predicate RenderedAt<J>(out: seq<AMessage<J>>, k: nat, m: Message, parse: string -> Option<J>, empty: J) {
    k < |out| && Renders(out[k], m, parse, empty)
  }

  lemma RenderedOneMore<J>(out: seq<AMessage<J>>, a: AMessage<J>, ms: seq<Message>, i: nat, parse: string -> Option<J>, empty: J)
    requires i < |ms| && Rendered(out, ms, i, parse, empty) && |out| == Known(ms[..i]) && Renders(a, ms[i], parse, empty)
    ensures Rendered(out + [a], ms, i + 1, parse, empty)
  {
    forall j | 0 <= j < i && !ms[j].Other?
      ensures RenderedAt(out + [a], Known(ms[..j]), ms[j], parse, empty)
    {
      assert RenderedAt(out, Known(ms[..j]), ms[j], parse, empty);
    }
  }

  lemma KnownOneMore(ms: seq<Message>, i: nat)
    requires i < |ms|
    ensures Known(ms[..i + 1]) == Known(ms[..i]) + if ms[i].Other? then 0 else 1
  {
    OneMore(ms, i);
  }

  /** The content blocks of an assistant message with tool calls. */
  method AssistantBlocks<J>(content: Option<string>, calls: seq<ToolCall>, parse: string -> Option<J>, empty: J)
    returns (blocks: seq<Block<J>>)
    requires calls != []
    ensures RendersCalls(blocks, content, calls, parse, empty)
    ensures ATurnOf(Blocks(false, blocks)) == Asks(OrEmpty(content), UsesOf(calls, parse, empty))
  {
    blocks := if OrEmpty(content) != "" then [Text(content.value)] else [];
    ghost var lead := |blocks|;
    var i := 0;
    while i < |calls|
      invariant 0 <= i <= |calls| && |blocks| == lead + i
      invariant lead == 1 ==> blocks[0] == Text(content.value)
      invariant forall k :: 0 <= k < i ==> RendersCall(blocks[lead + k], calls[k], parse, empty)
    {
      blocks := blocks + [ToolUse(calls[i].id, calls[i].name, InputOf(calls[i].arguments, parse, empty))];
      i := i + 1;
    }
    CallsRead(blocks, content, calls, parse, empty);
  }

  /** Blocks that render calls, after at most one text block, are read as the uses of those calls. */
  lemma {:induction false} UsesRead<J>(bs: seq<Block<J>>, lead: nat, calls: seq<ToolCall>, parse: string -> Option<J>, empty: J)
    requires lead <= 1 && |bs| == lead + |calls| && (lead == 1 ==> bs[0].Text?)
    requires forall i :: 0 <= i < |calls| ==> RendersCall(bs[lead + i], calls[i], parse, empty)
    ensures UsesIn(bs) == UsesOf(calls, parse, empty)
    decreases |calls|
  {
    if calls == [] {
      assert lead == 1 ==> bs[..0] == [];
    } else {
      var n, m := |calls| - 1, |bs| - 1;
      UsesRead(bs[..m], lead, calls[..n], parse, empty);
      assert UsesOf(calls, parse, empty) == UsesOf(calls[..n], parse, empty) + [UsesOf(calls, parse, empty)[n]];
      assert RendersCall(bs[lead + n], calls[n], parse, empty);
    }
  }

  lemma CallsRead<J>(bs: seq<Block<J>>, content: Option<string>, calls: seq<ToolCall>, parse: string -> Option<J>, empty: J)
    requires calls != [] && RendersCalls(bs, content, calls, parse, empty)
    ensures ATurnOf(Blocks(false, bs)) == Asks(OrEmpty(content), UsesOf(calls, parse, empty))
  {
    var lead := if content.Some? && content.value != "" then 1 else 0;
    UsesRead(bs, lead, calls, parse, empty);
    assert RendersCall(bs[lead], calls[0], parse, empty);
  }

  /** A message and its rendering are the same turn. */
  lemma SameTurn<J>(a: AMessage<J>, m: Message, parse: string -> Option<J>, empty: J)
    requires Renders(a, m, parse, empty)
    ensures TurnOf(m, parse, empty) == [ATurnOf(a)]
  {
    if m.Assistant? && m.calls != [] {
      CallsRead(a.blocks, m.content, m.calls, parse, empty);
    }
  }

  lemma SameTurnAppended<J>(out: seq<AMessage<J>>, a: AMessage<J>, ms: seq<Message>, i: nat, parse: string -> Option<J>, empty: J)
    requires i < |ms| && ATrace(out) == Trace(ms[..i], parse, empty) && Renders(a, ms[i], parse, empty)
    ensures ATrace(out + [a]) == Trace(ms[..i + 1], parse, empty)
  {
    TraceOneMore(ms, i, parse, empty);
    SameTurn(a, ms[i], parse, empty);
    ATraceAppend(out, a);
  }

  /** The translation of the first `n` messages: it reads exactly like the original, and each message of a known
      role has its own place in it. */
  ghost predicate Translated<J>(out: seq<AMessage<J>>, ms: seq<Message>, n: nat, parse: string -> Option<J>, empty: J)
    requires n <= |ms|
  {
    && ATrace(out) == Trace(ms[..n], parse, empty)
    && |out| == Known(ms[..n]) && Rendered(out, ms, n, parse, empty)
  }

  lemma TranslatedOneMore<J>(out: seq<AMessage<J>>, a: AMessage<J>, ms: seq<Message>, i: nat, parse: string -> Option<J>, empty: J)
    requires i < |ms| && Translated(out, ms, i, parse, empty) && Renders(a, ms[i], parse, empty)
    ensures Translated(out + [a], ms, i + 1, parse, empty)
  {
    KnownOneMore(ms, i);
    RenderedOneMore(out, a, ms, i, parse, empty);
    SameTurnAppended(out, a, ms, i, parse, empty);
  }

  lemma UnknownAddsNothing<J>(out: seq<AMessage<J>>, ms: seq<Message>, i: nat, parse: string -> Option<J>, empty: J)
    requires i < |ms| && Translated(out, ms, i, parse, empty) && ms[i].Other?
    ensures Translated(out, ms, i + 1, parse, empty)
  {
    KnownOneMore(ms, i);
    TraceOneMore(ms, i, parse, empty);
  }

  /** One pass of the loop: the message in the other format, or nothing for a role it does not know. */
  method TranslateMessage<J>(m: Message, parse: string -> Option<J>, empty: J) returns (a: Option<AMessage<J>>)
    ensures m.Other? <==> a.None?
    ensures a.Some? ==> Renders(a.value, m, parse, empty)
  {
    match m {
      case Assistant(content, calls) =>
        if calls != [] {
          var blocks := AssistantBlocks(content, calls, parse, empty);
          return Some(Blocks(false, blocks));
        }
        a := Some(Plain(false, OrEmpty(content)));
      case Tool(id, content) => a := Some(Blocks(true, [ToolResult(id, content)]));
      case User(content) => a := Some(Plain(true, OrEmpty(content)));
      case Other => a := None;
    }
  }

  /** The translated transcript reads exactly like the original: same speakers and texts, same tool
      requests with their ids, names and parsed inputs, same results, in the same order. */
  method ToAnthropicMessages<J>(ms: seq<Message>, parse: string -> Option<J>, empty: J) returns (out: seq<AMessage<J>>)
    ensures ATrace(out) == Trace(ms, parse, empty)
    ensures |out| == Known(ms)
    ensures forall j :: 0 <= j < |ms| && !ms[j].Other? ==>
              Known(ms[..j]) < |out| && Renders(out[Known(ms[..j])], ms[j], parse, empty)
  {
    out := [];
    var i := 0;
    while i < |ms|
      invariant 0 <= i <= |ms| && Translated(out, ms, i, parse, empty)
    {
      var a := TranslateMessage(ms[i], parse, empty);
      if a.Some? {
        TranslatedOneMore(out, a.value, ms, i, parse, empty);
        out := out + [a.value];
      } else {
        UnknownAddsNothing(out, ms, i, parse, empty);
      }
      i := i + 1;
    }
    assert ms[..i] == ms;
  }

  // ---------------------------------------------------------------- composing paired transcripts

  lemma TraceAppend<J>(a: seq<Message>, b: seq<Message>, parse: string -> Option<J>, empty: J)
    ensures Trace(a + b, parse, empty) == Trace(a, parse, empty) + Trace(b, parse, empty)
  {
    assert Turns(a + b, parse, empty) == Turns(a, parse, empty) + Turns(b, parse, empty);
    FlattenAppend(Turns(a, parse, empty), Turns(b, parse, empty));
  }

  lemma TraceOfOne<J>(m: Message, parse: string -> Option<J>, empty: J)
    ensures Trace([m], parse, empty) == TurnOf(m, parse, empty)
  {
    assert Turns([m], parse, empty) == [] + [TurnOf(m, parse, empty)];
    FlattenOneMore([], TurnOf(m, parse, empty));
  }

  lemma TraceOneMore<J>(ms: seq<Message>, i: nat, parse: string -> Option<J>, empty: J)
    requires i < |ms|
    ensures Trace(ms[..i + 1], parse, empty) == Trace(ms[..i], parse, empty) + TurnOf(ms[i], parse, empty)
  {
    OneMore(ms, i);
    TraceAppend(ms[..i], [ms[i]], parse, empty);
    TraceOfOne(ms[i], parse, empty);
  }

  lemma FrontOfAppend<T>(a: seq<T>, b: seq<T>, n: nat)
    requires 1 <= n <= |a|
    ensures (a + b)[0] == a[0] && (a + b)[n..] == a[n..] + b && (a + b)[1..n] == a[1..n] && (a + b)[1..] == a[1..] + b
  {
  }

  lemma {:induction false} PairedAppend<J>(a: seq<Turn<J>>, b: seq<Turn<J>>)
    requires Paired(a) && Paired(b)
    ensures Paired(a + b)
    decreases |a|
  {
    if a == [] {
      assert a + b == b;
    } else {
      var n := if a[0].Asks? then 1 + |a[0].uses| else 1;
      FrontOfAppend(a, b, n);
      PairedAppend(a[n..], b);
    }
  }
}
