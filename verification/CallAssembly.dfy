/** Reassembly of streamed tool calls: fragments of several calls arrive interleaved, keyed by index. */
module CallAssembly {
  import opened Prelude
  import opened Decimal

  /** One piece of one call; an absent id, name or argument text is the empty string. */
  datatype Fragment = Fragment(index: int, id: string, name: string, arguments: string)

  datatype Call = Call(id: string, name: string, arguments: string)

  datatype Usage = Usage(prompt: nat, completion: nat, total: nat)

  /** One parsed line of the stream; a chunk without a choice carries neither text nor fragments. */
  datatype Chunk = Chunk(usage: Option<Usage>, hasChoice: bool, content: string, fragments: seq<Fragment>, finished: bool)

  datatype Event =
    | Delta(text: string) | UsageReport(usage: Usage) | ToolCalls(calls: seq<Call>) | Done | Failed(message: string)

  /** How the transport ends after the last chunk: the body is complete, or the connection fails. */
  datatype Ending = Completes | Breaks(message: string)

  function IntText(i: int): string {
    if i < 0 then "-" + Digits(-i) else Digits(i)
  }

  // ---------------------------------------------------------------- one call, seen from its index alone

  /** The fragments of one index, in order. */
  function Only(fs: seq<Fragment>, index: int): seq<Fragment> {
    if fs == [] then []
    else Only(fs[..|fs| - 1], index) + (if fs[|fs| - 1].index == index then [fs[|fs| - 1]] else [])
  }

  function Names(fs: seq<Fragment>): string {
    if fs == [] then "" else Names(fs[..|fs| - 1]) + fs[|fs| - 1].name
  }

  function ArgumentsOf(fs: seq<Fragment>): string {
    if fs == [] then "" else ArgumentsOf(fs[..|fs| - 1]) + fs[|fs| - 1].arguments
  }

  /** The first fragment decides the id; without one, the index names the call. */
  function IdOf(first: Fragment): string {
    if first.id != "" then first.id else "call_" + IntText(first.index)
  }

  function CallOf(own: seq<Fragment>): Call
    requires own != []
  {
    Call(IdOf(own[0]), Names(own), ArgumentsOf(own))
  }

  /** The indices in order of first appearance. */
  function Order(fs: seq<Fragment>): seq<int> {
    if fs == [] then []
    else
      var front := Order(fs[..|fs| - 1]);
      if fs[|fs| - 1].index in front then front else front + [fs[|fs| - 1].index]
  }

  lemma {:induction false} OrderListsPresentIndices(fs: seq<Fragment>, index: int)
    ensures index in Order(fs) <==> Only(fs, index) != []
    ensures Distinct(Order(fs))
  {
    if fs != [] {
      var front, last := fs[..|fs| - 1], fs[|fs| - 1];
      OrderListsPresentIndices(front, index);
      ListedWithOneMore(Order(front), last.index, index);
      OnlyWithOneMore(Only(front, index), last, index);
    }
  }

  lemma ListedWithOneMore(order: seq<int>, next: int, index: int)
    requires Distinct(order)
    ensures var order' := if next in order then order else order + [next];
            Distinct(order') && (index in order' <==> index in order || index == next)
  {
  }

  lemma OnlyWithOneMore(own: seq<Fragment>, f: Fragment, index: int)
    ensures own + (if f.index == index then [f] else []) != [] <==> own != [] || f.index == index
  {
  }

  /** The position of the first fragment of an index, or the length when there is none. */
  function FirstAt(fs: seq<Fragment>, index: int): (k: nat)
    ensures k <= |fs| && (k < |fs| ==> fs[k].index == index)
    ensures forall j :: 0 <= j < k ==> fs[j].index != index
  {
    if fs == [] then 0
    else
      var front := FirstAt(fs[..|fs| - 1], index);
      if front < |fs| - 1 || fs[|fs| - 1].index == index then front else |fs|
  }

  /** Indices are listed in the order in which their first fragments arrive. */
  lemma {:induction false} OrderIsByFirstAppearance(fs: seq<Fragment>, a: nat, b: nat)
    requires a < b < |Order(fs)|
    ensures FirstAt(fs, Order(fs)[a]) < FirstAt(fs, Order(fs)[b]) < |fs|
  {
    var n := |fs| - 1;
    var front := fs[..n];
    OrderListsPresentIndices(front, Order(fs)[a]);
    FirstAtPresent(front, Order(fs)[a]);
    if b < |Order(front)| {
      OrderIsByFirstAppearance(front, a, b);
    } else {
      OrderListsPresentIndices(front, Order(fs)[b]);
      FirstAtPresent(front, Order(fs)[b]);
    }
  }

  lemma {:induction false} FirstAtPresent(fs: seq<Fragment>, index: int)
    ensures FirstAt(fs, index) < |fs| <==> Only(fs, index) != []
  {
    if fs != [] {
      FirstAtPresent(fs[..|fs| - 1], index);
    }
  }

  lemma AllListedArePresent(fs: seq<Fragment>)
    ensures forall k :: 0 <= k < |Order(fs)| ==> Only(fs, Order(fs)[k]) != []
  {
    forall k | 0 <= k < |Order(fs)|
      ensures Only(fs, Order(fs)[k]) != []
    {
      OrderListsPresentIndices(fs, Order(fs)[k]);
    }
  }

  function Assembled(fs: seq<Fragment>): (calls: seq<Call>)
    ensures |calls| == |Order(fs)|
  {
    AllListedArePresent(fs);
    seq(|Order(fs)|, k requires 0 <= k < |Order(fs)| => CallOf(Only(fs, Order(fs)[k])))
  }

  lemma SameIndices(a: seq<Fragment>, b: seq<Fragment>, i: int)
    requires forall i :: Only(a, i) == Only(b, i)
    ensures i in Order(a) <==> i in Order(b)
  {
    OrderListsPresentIndices(a, i);
    OrderListsPresentIndices(b, i);
  }

  lemma SameIndexCount(a: seq<Fragment>, b: seq<Fragment>)
    requires forall i :: Only(a, i) == Only(b, i)
    ensures |Order(a)| == |Order(b)|
  {
    OrderListsPresentIndices(a, 0);
    OrderListsPresentIndices(b, 0);
    SizeOfDistinct(Order(a));
    SizeOfDistinct(Order(b));
    forall i
      ensures i in Elements(Order(a)) <==> i in Elements(Order(b))
    {
      SameIndices(a, b, i);
    }
    assert Elements(Order(a)) == Elements(Order(b));
  }

  /** Assembly does not depend on how fragments of different calls interleave: streams that agree index by
      index list the same indices, and give each the same call. */
  lemma InterleavingIsIrrelevant(a: seq<Fragment>, b: seq<Fragment>, k: nat)
    requires forall i :: Only(a, i) == Only(b, i)
    requires k < |Order(a)|
    ensures |Assembled(a)| == |Assembled(b)|
    ensures exists m :: 0 <= m < |Order(b)| && Order(b)[m] == Order(a)[k] && Assembled(b)[m] == Assembled(a)[k]
  {
    SameIndexCount(a, b);
    SameIndices(a, b, Order(a)[k]);
    var m :| 0 <= m < |Order(b)| && Order(b)[m] == Order(a)[k];
    AllListedArePresent(a);
    AllListedArePresent(b);
    assert Assembled(b)[m] == Assembled(a)[k];
  }

  lemma OneMoreFragment(fs: seq<Fragment>, f: Fragment, index: int)
    ensures Only(fs + [f], index) == Only(fs, index) + if f.index == index then [f] else []
    ensures Names(fs + [f]) == Names(fs) + f.name
    ensures ArgumentsOf(fs + [f]) == ArgumentsOf(fs) + f.arguments
  {
    assert (fs + [f])[..|fs|] == fs;
  }

  /** Each index has its own fragments, in the order of arrival, however a stream is cut. */
  lemma {:induction false} FragmentsJoin(a: seq<Fragment>, b: seq<Fragment>, index: int)
    ensures Only(a + b, index) == Only(a, index) + Only(b, index)
  {
    if b == [] {
      assert a + b == a;
    } else {
      var front, last := b[..|b| - 1], b[|b| - 1];
      FragmentsJoin(a, front, index);
      OneMoreFragment(a + front, last, index);
      ConcatAssociates(a, front, [last]);
      assert b == front + [last];
      ConcatAssociates(Only(a, index), Only(front, index), if last.index == index then [last] else []);
    }
  }

  /** Names and arguments are put together piece by piece, in the order of arrival. */
  lemma {:induction false} TextsJoin(a: seq<Fragment>, b: seq<Fragment>)
    ensures Names(a + b) == Names(a) + Names(b) && ArgumentsOf(a + b) == ArgumentsOf(a) + ArgumentsOf(b)
  {
    if b == [] {
      assert a + b == a;
    } else {
      var front, last := b[..|b| - 1], b[|b| - 1];
      TextsJoin(a, front);
      OneMoreFragment(a + front, last, 0);
      ConcatAssociates(a, front, [last]);
      assert b == front + [last];
      ConcatAssociates(Names(a), Names(front), last.name);
      ConcatAssociates(ArgumentsOf(a), ArgumentsOf(front), last.arguments);
    }
  }

  /** A single fragment is found under its own index only, and gives its own texts. */
  lemma PieceIs(f: Fragment, index: int)
    ensures Only([f], index) == if f.index == index then [f] else []
    ensures Names([f]) == f.name && ArgumentsOf([f]) == f.arguments
  {
    OneMoreFragment([], f, index);
    assert [] + [f] == [f];
  }

  lemma {:induction false} FirstOfOnly(fs: seq<Fragment>, index: int)
    requires Only(fs, index) != []
    ensures FirstAt(fs, index) < |fs| && Only(fs, index)[0] == fs[FirstAt(fs, index)]
  {
    var front := fs[..|fs| - 1];
    FirstAtPresent(fs, index);
    FirstAtPresent(front, index);
    if Only(front, index) != [] {
      FirstOfOnly(front, index);
    }
  }

  /** An assembled call has the id of the first fragment of its index, or one made of the index, and the names
      and arguments of all of them. */
  lemma AssembledIs(fs: seq<Fragment>, k: nat, index: int, at: nat)
    requires k < |Order(fs)| && index == Order(fs)[k]
    requires at < |fs| && fs[at].index == index && forall j :: 0 <= j < at ==> fs[j].index != index
    ensures var c, own := Assembled(fs)[k], Only(fs, index);
            && c.name == Names(own) && c.arguments == ArgumentsOf(own)
            && (fs[at].id != "" ==> c.id == fs[at].id)
            && (fs[at].id == "" && index >= 0 ==> c.id == "call_" + Digits(index))
            && (fs[at].id == "" && index < 0 ==> c.id == "call_-" + Digits(-index))
  {
    AllListedArePresent(fs);
    FirstOfOnly(fs, index);
    assert "call_" + ("-" + Digits(if index < 0 then -index else 0)) == "call_-" + Digits(if index < 0 then -index else 0);
  }

  /** Every assembled call has an id. */
  lemma CallsHaveIds(fs: seq<Fragment>, k: nat)
    requires k < |Assembled(fs)|
    ensures Assembled(fs)[k].id != ""
  {
    AllListedArePresent(fs);
  }

  // ---------------------------------------------------------------- the stream

  /** The chunks read before the loop stops: through the first choice that reports a finish reason. */
  function Read(cs: seq<Chunk>): seq<Chunk> {
    if cs == [] then []
    else if cs[0].hasChoice && cs[0].finished then [cs[0]]
    else [cs[0]] + Read(cs[1..])
  }

  function EventsOf(c: Chunk): seq<Event> {
    (if c.usage.Some? then [UsageReport(c.usage.value)] else [])
    + if c.hasChoice && c.content != "" then [Delta(c.content)] else []
  }

  function Reported(cs: seq<Chunk>): seq<Event> {
    if cs == [] then [] else Reported(cs[..|cs| - 1]) + EventsOf(cs[|cs| - 1])
  }

  function FragmentsOf(cs: seq<Chunk>): seq<Fragment> {
    if cs == [] then []
    else
      var front := FragmentsOf(cs[..|cs| - 1]);
      if cs[|cs| - 1].hasChoice then front + cs[|cs| - 1].fragments else front
  }

  /** Some chunk reports a finish reason, so the loop stops there and never sees how the transport ends. */
  predicate Finishes(cs: seq<Chunk>) {
    exists i :: 0 <= i < |cs| && cs[i].hasChoice && cs[i].finished
  }

  function Conclusion(seen: seq<Chunk>): seq<Event> {
    (if FragmentsOf(seen) == [] then [] else [ToolCalls(Assembled(FragmentsOf(seen)))]) + [Done]
  }

  function Streamed(cs: seq<Chunk>, ending: Ending): seq<Event> {
    Reported(Read(cs)) + if ending.Breaks? && !Finishes(cs) then [Failed(ending.message)] else Conclusion(Read(cs))
  }

  /** Neither a usage chunk that follows the finish reason, although the request asks for one, nor a failure
      after it is ever noticed. */
  lemma {:induction false} NothingAfterFinishIsRead(before: seq<Chunk>, last: Chunk, after: seq<Chunk>, ending: Ending)
    requires last.hasChoice && last.finished
    ensures Streamed(before + [last] + after, ending) == Streamed(before + [last], Completes)
  {
    ReadStops(before, last, after);
    assert (before + [last] + after)[|before|] == last;
  }

  lemma {:induction false} ReportedUsage(cs: seq<Chunk>, u: Usage)
    ensures UsageReport(u) in Reported(cs) <==> exists i :: 0 <= i < |cs| && cs[i].usage == Some(u)
  {
    if cs != [] {
      var n := |cs| - 1;
      ReportedUsage(cs[..n], u);
      assert cs == cs[..n] + [cs[n]];
      OneMoreChunk(cs[..n], cs[n]);
      CarriedByOneMore(cs[..n], cs[n], u);
    }
  }

  lemma CarriedByOneMore(front: seq<Chunk>, c: Chunk, u: Usage)
    ensures (exists i :: 0 <= i < |front + [c]| && (front + [c])[i].usage == Some(u))
            <==> (exists i :: 0 <= i < |front| && front[i].usage == Some(u)) || UsageReport(u) in EventsOf(c)
  {
    var cs := front + [c];
    if i :| 0 <= i < |front| && front[i].usage == Some(u) {
      assert cs[i].usage == Some(u);
    }
    if UsageReport(u) in EventsOf(c) {
      assert cs[|front|].usage == Some(u);
    }
  }

  /** The loop reads a chunk exactly when no earlier one reports a finish reason. */
  lemma {:induction false} ReadUntilFinish(cs: seq<Chunk>, i: nat)
    requires i < |cs|
    ensures Read(cs) <= cs && (i < |Read(cs)| <==> !Finishes(cs[..i]))
  {
    if cs[0].hasChoice && cs[0].finished {
      assert i > 0 ==> cs[..i][0] == cs[0];
    } else if i > 0 {
      ReadUntilFinish(cs[1..], i - 1);
      assert cs == [cs[0]] + cs[1..];
      FinishesLater(cs[..i]);
      assert cs[..i][1..] == cs[1..][..i - 1];
    } else if |cs| > 1 {
      ReadUntilFinish(cs[1..], 0);
      assert cs == [cs[0]] + cs[1..];
    }
  }

  lemma FinishesLater(cs: seq<Chunk>)
    requires cs != [] && !(cs[0].hasChoice && cs[0].finished)
    ensures Finishes(cs) <==> Finishes(cs[1..])
  {
    if i :| 0 <= i < |cs| && cs[i].hasChoice && cs[i].finished {
      assert cs[1..][i - 1] == cs[i];
    }
    if i :| 0 <= i < |cs[1..]| && cs[1..][i].hasChoice && cs[1..][i].finished {
      assert cs[i + 1] == cs[1..][i];
    }
  }

  /** A token usage is reported exactly when a chunk carries it and no earlier chunk reports a finish reason,
      whether or not the stream has one and however the connection ends. */
  lemma UsageReportedIff(cs: seq<Chunk>, ending: Ending, u: Usage)
    ensures UsageReport(u) in Streamed(cs, ending)
            <==> exists i :: 0 <= i < |cs| && cs[i].usage == Some(u)
                             && forall k :: 0 <= k < i ==> !(cs[k].hasChoice && cs[k].finished)
  {
    var seen := Read(cs);
    ReportedUsage(seen, u);
    assert UsageReport(u) in Streamed(cs, ending) <==> UsageReport(u) in Reported(seen);
    if i :| 0 <= i < |seen| && seen[i].usage == Some(u) {
      ReadIsPrefix(cs);
      ReadUntilFinish(cs, i);
      forall k | 0 <= k < i
        ensures !(cs[k].hasChoice && cs[k].finished)
      {
        assert cs[..i][k] == cs[k];
      }
      assert cs[i].usage == Some(u);
    }
    if i :| 0 <= i < |cs| && cs[i].usage == Some(u) && forall k :: 0 <= k < i ==> !(cs[k].hasChoice && cs[k].finished) {
      ReadUntilFinish(cs, i);
      assert seen[i].usage == Some(u);
    }
  }

  lemma ReadIsPrefix(cs: seq<Chunk>)
    ensures Read(cs) <= cs
  {
    if cs != [] {
      ReadUntilFinish(cs, 0);
    }
  }

  /** The token usage of an ordinary reply is lost: it comes in a chunk of its own after the finish reason.
      The same chunk before the finish reason is reported. */
  lemma UsageTailIsLost(text: string, usage: Usage)
    requires text != ""
    ensures var finish, tail := Chunk(None, true, text, [], true), Chunk(Some(usage), false, "", [], false);
            && Streamed([finish] + [tail], Completes) == [Delta(text), Done]
            && Streamed([tail] + [finish], Completes) == [UsageReport(usage), Delta(text), Done]
  {
    var finish, tail := Chunk(None, true, text, [], true), Chunk(Some(usage), false, "", [], false);
    assert ([tail] + [finish])[1..] == [finish] && Read([finish] + [tail]) == [finish];
    assert Read([finish]) == [finish] && Read([tail] + [finish]) == [tail] + [finish];
    assert [] + [finish] == [finish] && [] + [tail] == [tail];
    OneMoreChunk([], finish);
    OneMoreChunk([], tail);
    OneMoreChunk([tail], finish);
    assert Conclusion([finish]) == [Done] && Conclusion([tail] + [finish]) == [Done];
  }

  /** The text carried by the choices of some chunks. */
  function ContentIn(cs: seq<Chunk>): string {
    if cs == [] then "" else ContentIn(cs[..|cs| - 1]) + if cs[|cs| - 1].hasChoice then cs[|cs| - 1].content else ""
  }

  function DeltaText(es: seq<Event>): string {
    if es == [] then "" else DeltaText(es[..|es| - 1]) + if es[|es| - 1].Delta? then es[|es| - 1].text else ""
  }

  lemma {:induction false} DeltaTextAppend(a: seq<Event>, b: seq<Event>)
    ensures DeltaText(a + b) == DeltaText(a) + DeltaText(b)
  {
    if b == [] {
      assert a + b == a;
    } else {
      DeltaTextAppend(a, b[..|b| - 1]);
      assert (a + b)[..|a + b| - 1] == a + b[..|b| - 1];
    }
  }

  lemma DeltaTextOfChunk(c: Chunk)
    ensures DeltaText(EventsOf(c)) == if c.hasChoice then c.content else ""
  {
    var usage := if c.usage.Some? then [UsageReport(c.usage.value)] else [];
    var text := if c.hasChoice && c.content != "" then [Delta(c.content)] else [];
    DeltaTextAppend(usage, text);
    assert usage != [] ==> usage[..0] == [];
    assert text != [] ==> text[..0] == [];
  }

  /** The text of the chunks read reaches the listener complete and in order. */
  lemma {:induction false} TextIsReported(cs: seq<Chunk>)
    ensures DeltaText(Reported(cs)) == ContentIn(cs)
  {
    if cs != [] {
      TextIsReported(cs[..|cs| - 1]);
      DeltaTextOfChunk(cs[|cs| - 1]);
      DeltaTextAppend(Reported(cs[..|cs| - 1]), EventsOf(cs[|cs| - 1]));
    }
  }

  lemma OneMoreChunk(front: seq<Chunk>, c: Chunk)
    ensures Reported(front + [c]) == Reported(front) + EventsOf(c)
    ensures FragmentsOf(front + [c]) == FragmentsOf(front) + if c.hasChoice then c.fragments else []
  {
    assert (front + [c])[..|front|] == front;
    assert FragmentsOf(front) + [] == FragmentsOf(front);
  }

  /** A connection that fails before a finish reason reports what it had and the failure, and never hands over
      a half-assembled call or claims to be done; any other stream ends with exactly one done. */
  lemma {:induction false} BrokenStreamAsksForNothing(cs: seq<Chunk>, ending: Ending, k: nat)
    requires k < |Streamed(cs, ending)|
    ensures ending.Breaks? && !Finishes(cs) ==>
              var e := Streamed(cs, ending)[k];
              !e.ToolCalls? && !e.Done? && (e.Failed? <==> k == |Streamed(cs, ending)| - 1)
    ensures !(ending.Breaks? && !Finishes(cs)) ==>
              var e := Streamed(cs, ending)[k];
              !e.Failed? && (e.Done? <==> k == |Streamed(cs, ending)| - 1)
  {
    if k < |Reported(Read(cs))| {
      OnlyReports(Read(cs), k);
    }
  }

  lemma {:induction false} OnlyReports(cs: seq<Chunk>, k: nat)
    requires k < |Reported(cs)|
    ensures Reported(cs)[k].UsageReport? || (Reported(cs)[k].Delta? && Reported(cs)[k].text != "")
  {
    if k < |Reported(cs[..|cs| - 1])| {
      OnlyReports(cs[..|cs| - 1], k);
    }
  }

  lemma {:induction false} ReadStops(before: seq<Chunk>, last: Chunk, after: seq<Chunk>)
    requires last.hasChoice && last.finished
    ensures Read(before + [last] + after) == Read(before + [last])
  {
    if before == [] {
      assert (before + [last] + after)[0] == last && (before + [last])[0] == last;
    } else {
      ReadStops(before[1..], last, after);
      assert (before + [last] + after)[1..] == before[1..] + [last] + after;
      assert (before + [last])[1..] == before[1..] + [last];
    }
  }

  lemma {:induction false} ReadPrefix(cs: seq<Chunk>, n: nat)
    requires n <= |cs| && forall i :: 0 <= i < n ==> !(cs[i].hasChoice && cs[i].finished)
    ensures Read(cs) == cs[..n] + Read(cs[n..])
  {
    if n > 0 {
      ReadPrefix(cs, n - 1);
      assert cs[n - 1..][1..] == cs[n..];
      OneMore(cs, n - 1);
    } else {
      assert cs[0..] == cs;
    }
  }

  lemma OrderExtend(fs: seq<Fragment>, f: Fragment)
    ensures Order(fs + [f]) == if f.index in Order(fs) then Order(fs) else Order(fs) + [f.index]
    ensures forall i :: Only(fs + [f], i) == Only(fs, i) + if i == f.index then [f] else []
  {
    assert (fs + [f])[..|fs|] == fs;
  }

  ghost predicate Holds(pending: map<int, Call>, order: seq<int>, fs: seq<Fragment>) {
    && order == Order(fs)
    && (forall i :: i in pending <==> i in order)
    && forall i :: i in pending ==> Only(fs, i) != [] && pending[i] == CallOf(Only(fs, i))
  }

  /** `setdefault` on the index, then append to name and arguments. */
  method AddFragment(pending: map<int, Call>, order: seq<int>, f: Fragment, ghost fs: seq<Fragment>)
    returns (pending': map<int, Call>, order': seq<int>)
    requires Holds(pending, order, fs)
    ensures Holds(pending', order', fs + [f])
  {
    FragmentExtendsCall(fs, f);
    OrderListsPresentIndices(fs, f.index);
    var call := if f.index in pending then pending[f.index] else Call(IdOf(f), "", "");
    order' := if f.index in pending then order else order + [f.index];
    call := call.(name := call.name + f.name);
    call := call.(arguments := call.arguments + f.arguments);
    assert call == CallOf(Only(fs + [f], f.index));
    pending' := pending[f.index := call];
    HoldsAfter(pending, order, fs, f, call);
  }

  lemma HoldsAfter(pending: map<int, Call>, order: seq<int>, fs: seq<Fragment>, f: Fragment, call: Call)
    requires Holds(pending, order, fs)
    requires Only(fs + [f], f.index) != [] && call == CallOf(Only(fs + [f], f.index))
    ensures Holds(pending[f.index := call], if f.index in pending then order else order + [f.index], fs + [f])
  {
    OrderExtend(fs, f);
    forall i | i in pending && i != f.index
      ensures Only(fs + [f], i) == Only(fs, i)
    {
      assert Only(fs, i) + [] == Only(fs, i);
    }
  }

  /** What one more fragment does to the call of its own index. */
  lemma FragmentExtendsCall(fs: seq<Fragment>, f: Fragment)
    ensures var own, next := Only(fs, f.index), Only(fs + [f], f.index);
            && next != []
            && CallOf(next) == (if own == [] then Call(IdOf(f), "" + f.name, "" + f.arguments)
                                else Call(CallOf(own).id, CallOf(own).name + f.name, CallOf(own).arguments + f.arguments))
  {
    OrderExtend(fs, f);
    var own := Only(fs, f.index);
    assert (own + [f])[..|own|] == own;
    if own == [] {
      assert own + [f] == [f];
      assert Names([]) == "" && ArgumentsOf([]) == "";
    }
  }

  method AddFragments(pending: map<int, Call>, order: seq<int>, fragments: seq<Fragment>, ghost fs: seq<Fragment>)
    returns (pending': map<int, Call>, order': seq<int>)
    requires Holds(pending, order, fs)
    ensures Holds(pending', order', fs + fragments)
  {
    pending', order' := pending, order;
    var i := 0;
    assert fs + fragments[..0] == fs;
    while i < |fragments|
      invariant 0 <= i <= |fragments| && Holds(pending', order', fs + fragments[..i])
    {
      pending', order' := AddFragment(pending', order', fragments[i], fs + fragments[..i]);
      OneMore(fragments, i);
      assert fs + fragments[..i] + [fragments[i]] == fs + fragments[..i + 1];
      i := i + 1;
    }
    assert fragments[..i] == fragments;
  }

  /** One parsed chunk: its usage and text are reported at once, its fragments are collected. */
  method ReadChunk(pending: map<int, Call>, order: seq<int>, c: Chunk, ghost fs: seq<Fragment>)
    returns (events: seq<Event>, pending': map<int, Call>, order': seq<int>)
    requires Holds(pending, order, fs)
    ensures events == EventsOf(c)
    ensures Holds(pending', order', fs + if c.hasChoice then c.fragments else [])
  {
    assert fs + [] == fs;
    events, pending', order' := [], pending, order;
    if c.usage.Some? {
      events := events + [UsageReport(c.usage.value)];
    }
    if c.hasChoice {
      if c.content != "" {
        events := events + [Delta(c.content)];
      }
      pending', order' := AddFragments(pending, order, c.fragments, fs);
    }
  }

  /** Lists the collected calls in the order in which they first appeared. */
  method ListCalls(pending: map<int, Call>, order: seq<int>, ghost fs: seq<Fragment>) returns (calls: seq<Call>)
    requires Holds(pending, order, fs)
    ensures calls == Assembled(fs)
    ensures calls == [] <==> fs == []
  {
    AllListedArePresent(fs);
    calls := [];
    var k := 0;
    while k < |order|
      invariant 0 <= k <= |order| && calls == Assembled(fs)[..k]
    {
      assert order[k] in pending;
      OneMore(Assembled(fs), k);
      calls := calls + [pending[order[k]]];
      k := k + 1;
    }
    assert Assembled(fs)[..k] == Assembled(fs);
  }

  lemma ReadMeetsEnd(cs: seq<Chunk>, i: nat)
    requires i < |cs| && forall k :: 0 <= k < i ==> !(cs[k].hasChoice && cs[k].finished)
    ensures cs[i].hasChoice && cs[i].finished ==> Read(cs) == cs[..i + 1]
  {
    ReadPrefix(cs, i);
    OneMore(cs, i);
    assert cs[i..][0] == cs[i];
  }

  /** The streaming loop, its closing events, and the handler of a failed connection. */
  method StreamOpenAI(chunks: seq<Chunk>, ending: Ending) returns (events: seq<Event>)
    ensures events == Streamed(chunks, ending)
  {
    events := [];
    var pending: map<int, Call>, order: seq<int> := map[], [];
    var i, stopped := 0, false;
    while i < |chunks| && !stopped
      invariant 0 <= i <= |chunks|
      invariant events == Reported(chunks[..i]) && Holds(pending, order, FragmentsOf(chunks[..i]))
      invariant !stopped ==> forall k :: 0 <= k < i ==> !(chunks[k].hasChoice && chunks[k].finished)
      invariant stopped ==> Read(chunks) == chunks[..i] && Finishes(chunks)
    {
      assert chunks[..i + 1] == chunks[..i] + [chunks[i]];
      OneMoreChunk(chunks[..i], chunks[i]);
      ReadMeetsEnd(chunks, i);
      var seen;
      seen, pending, order := ReadChunk(pending, order, chunks[i], FragmentsOf(chunks[..i]));
      events := events + seen;
      if chunks[i].hasChoice && chunks[i].finished {
        stopped := true;
      }
      i := i + 1;
    }
    if !stopped {
      NeverStopped(chunks);
      assert chunks[..i] == chunks;
      if ending.Breaks? {
        return events + [Failed(ending.message)];
      }
    }
    var rest := Conclude(pending, order, chunks[..i]);
    events := events + rest;
  }

  lemma NeverStopped(cs: seq<Chunk>)
    requires forall k :: 0 <= k < |cs| ==> !(cs[k].hasChoice && cs[k].finished)
    ensures Read(cs) == cs && !Finishes(cs)
  {
    ReadPrefix(cs, |cs|);
  }

  /** The calls, if any were collected, and the end. */
  method Conclude(pending: map<int, Call>, order: seq<int>, ghost seen: seq<Chunk>) returns (events: seq<Event>)
    requires Holds(pending, order, FragmentsOf(seen))
    ensures events == Conclusion(seen)
  {
    events := [];
    var calls := ListCalls(pending, order, FragmentsOf(seen));
    if calls != [] {
      events := events + [ToolCalls(calls)];
    }
    events := events + [Done];
  }
}
