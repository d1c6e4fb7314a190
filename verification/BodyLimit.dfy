/** The request-body limiter: counts what the application reads and replaces the response once the
    limit is exceeded. */
module BodyLimit {
  import opened Prelude

  type Byte = bv8

  /** What the server hands over, and what the application sends back. */
  datatype Inbound = Chunk(body: seq<Byte>, more: bool) | Disconnect

  datatype Outbound = Start(status: nat) | Content

  /** An application is any sequence of calls; `catches` says it survives an exception raised by this send,
      and `Crash` that it fails with an exception of its own. */
  datatype Action = Receive | Send(message: Outbound, catches: bool) | Crash

  datatype Ending = Running | Returned | Rejected | Crashed

  /** `wire` is still to be read, `delivered` is what the application got, `client` what the client got. */
  datatype State = State(
    received: nat, tooLarge: bool, wire: seq<Inbound>, delivered: seq<Inbound>, client: seq<Outbound>, ending: Ending)

  const TOO_LARGE_STATUS := 413
  const CUT := Chunk([], false)

  function Rejection(): seq<Outbound> {
    [Start(TOO_LARGE_STATUS), Content]
  }

  function Size(m: Inbound): nat {
    if m.Chunk? then |m.body| else 0
  }

  function NextInbound(wire: seq<Inbound>): Inbound {
    if wire == [] then Disconnect else wire[0]
  }

  function Step(max: int, s: State, a: Action): State {
    if s.ending != Running then s
    else match a
      case Receive =>
        var m := NextInbound(s.wire);
        var received := s.received + Size(m);
        var over := m.Chunk? && received > max;
        s.(received := received, tooLarge := s.tooLarge || over, wire := if s.wire == [] then [] else s.wire[1..],
           delivered := s.delivered + [if over then CUT else m])
      case Send(m, catches) =>
        if s.tooLarge && m.Start? then
          (if catches then s else s.(client := s.client + Rejection(), ending := Rejected))
        else s.(client := s.client + [m])
      case Crash => s.(ending := Crashed)
  }

  function Run(max: int, s: State, actions: seq<Action>): State
    decreases |actions|
  {
    if actions == [] then s else Step(max, Run(max, s, actions[..|actions| - 1]), actions[|actions| - 1])
  }

  function Fresh(wire: seq<Inbound>): State {
    State(0, false, wire, [], [], Running)
  }

  /** The application as finished: a run that was neither rejected nor crashed returned normally. */
  function Finished(s: State): State {
    if s.ending == Running then s.(ending := Returned) else s
  }

  /** A whole request; `declared` is the declared content length, if it is a number. */
  function Handled(max: int, declared: Option<int>, wire: seq<Inbound>, actions: seq<Action>): State {
    if declared.Some? && declared.value > max
    then Fresh(wire).(client := Rejection(), ending := Rejected)
    else Finished(Run(max, Fresh(wire), actions))
  }

  // ---------------------------------------------------------------- the middleware

  /** One request's guard. */
  class Guard {
    const maxBytes: int
    var received: nat
    var tooLarge: bool
    var wire: seq<Inbound>
    var delivered: seq<Inbound>
    var client: seq<Outbound>
    ghost var ending: Ending

    ghost function Now(): State
      reads this
    {
      State(received, tooLarge, wire, delivered, client, ending)
    }

    constructor (maxBytes: int, wire: seq<Inbound>)
      ensures this.maxBytes == maxBytes && Now() == Fresh(wire)
    {
      this.maxBytes := maxBytes;
      this.wire := wire;
      received, tooLarge, delivered, client, ending := 0, false, [], [], Running;
    }

    method CountingReceive() returns (m: Inbound)
      requires ending == Running
      modifies this
      ensures Now() == Step(maxBytes, old(Now()), Receive) && delivered == old(delivered) + [m]
    {
      m := NextInbound(wire);
      if wire != [] {
        wire := wire[1..];
      }
      if m.Chunk? {
        received := received + |m.body|;
        if received > maxBytes {
          tooLarge := true;
          m := CUT;
        }
      }
      delivered := delivered + [m];
    }

    /** Forwards a message unless the body was too large and this would start a response. */
    method GuardedSend(m: Outbound) returns (raised: bool)
      requires ending == Running
      modifies this
      ensures raised <==> old(tooLarge) && m.Start?
      ensures raised ==> Now() == old(Now())
      ensures !raised ==> forall catches :: Now() == Step(maxBytes, old(Now()), Send(m, catches))
    {
      if tooLarge && m.Start? {
        return true;
      }
      client := client + [m];
      raised := false;
    }

    method Reject()
      modifies this
      ensures Now() == old(Now()).(client := old(client) + Rejection(), ending := Rejected)
    {
      client := client + Rejection();
      ending := Rejected;
    }

    /** `__call__` for an HTTP request: the early rejection, then the application behind the two hooks. */
    method Call(declared: Option<int>, actions: seq<Action>)
      requires received == 0 && !tooLarge && delivered == [] && client == [] && ending == Running
      modifies this
      ensures Now() == Handled(maxBytes, declared, old(wire), actions)
    {
      if declared.Some? && declared.value > maxBytes {
        assert [] + Rejection() == Rejection();
        Reject();
        return;
      }
      ghost var start := Now();
      var i := 0;
      while i < |actions|
        invariant 0 <= i <= |actions| && ending == Running
        invariant Now() == Run(maxBytes, start, actions[..i])
      {
        OneMore(actions, i);
        ghost var next := Step(maxBytes, Now(), actions[i]);
        match actions[i] {
          case Receive =>
            var _ := CountingReceive();
          case Send(m, catches) =>
            var raised := GuardedSend(m);
            if raised && !catches {
              Reject();
              StoppedStays(maxBytes, start, actions, i + 1);
              return;
            }
          case Crash =>
            ending := Crashed;
            StoppedStays(maxBytes, start, actions, i + 1);
            return;
        }
        i := i + 1;
      }
      assert actions[..i] == actions;
      ending := Returned;
    }
  }

  lemma {:induction false} StoppedStays(max: int, s: State, actions: seq<Action>, n: nat)
    requires n <= |actions| && Run(max, s, actions[..n]).ending != Running
    ensures Run(max, s, actions) == Run(max, s, actions[..n])
    decreases |actions|
  {
    if n < |actions| {
      var m := |actions| - 1;
      assert actions[..m][..n] == actions[..n];
      StoppedStays(max, s, actions[..m], n);
    } else {
      assert actions[..n] == actions;
    }
  }

  // ---------------------------------------------------------------- what the application can have read

  function BodyOf(ms: seq<Inbound>): seq<Byte> {
    if ms == [] then [] else BodyOf(ms[..|ms| - 1]) + if ms[|ms| - 1].Chunk? then ms[|ms| - 1].body else []
  }

  function Total(ms: seq<Inbound>): nat {
    if ms == [] then 0 else Total(ms[..|ms| - 1]) + Size(ms[|ms| - 1])
  }

  /** The first `n` messages a reader of the wire sees; after the end the server reports a disconnect. */
  function Got(wire: seq<Inbound>, n: nat): seq<Inbound> {
    if n == 0 then [] else Got(wire, n - 1) + [if n <= |wire| then wire[n - 1] else Disconnect]
  }

  /** The same messages as the guard passes them on. */
  function Passed(max: int, got: seq<Inbound>): seq<Inbound> {
    if got == [] then []
    else
      var last := got[|got| - 1];
      Passed(max, got[..|got| - 1]) + [if last.Chunk? && Total(got) > max then CUT else last]
  }

  lemma {:induction false} BodyLengthIsTotal(ms: seq<Inbound>)
    ensures |BodyOf(ms)| == Total(ms)
  {
    if ms != [] {
      BodyLengthIsTotal(ms[..|ms| - 1]);
    }
  }

  lemma AppendOne(max: int, ms: seq<Inbound>, m: Inbound)
    ensures BodyOf(ms + [m]) == BodyOf(ms) + if m.Chunk? then m.body else []
    ensures Total(ms + [m]) == Total(ms) + Size(m)
    ensures Passed(max, ms + [m]) == Passed(max, ms) + [if m.Chunk? && Total(ms) + Size(m) > max then CUT else m]
  {
    assert (ms + [m])[..|ms|] == ms;
  }

  /** One more message: passed on unchanged while everything so far fits, otherwise it adds no body. */
  lemma PassedStep(max: int, front: seq<Inbound>, last: Inbound)
    ensures Total(front) + Size(last) <= max ==> Passed(max, front + [last]) == Passed(max, front) + [last]
    ensures Total(front) + Size(last) > max ==> BodyOf(Passed(max, front + [last])) == BodyOf(Passed(max, front))
  {
    AppendOne(max, front, last);
    var passed := if last.Chunk? && Total(front) + Size(last) > max then CUT else last;
    AppendOne(max, Passed(max, front), passed);
  }

  ghost predicate BoundedPrefix(max: int, got: seq<Inbound>) {
    && BodyOf(Passed(max, got)) <= BodyOf(got)
    && |BodyOf(Passed(max, got))| <= (if max < 0 then 0 else max)
    && (Total(got) <= max ==> Passed(max, got) == got)
  }

  lemma BoundedStep(max: int, front: seq<Inbound>, last: Inbound)
    requires BoundedPrefix(max, front)
    ensures BoundedPrefix(max, front + [last])
  {
    var got := front + [last];
    AppendOne(max, front, last);
    PassedStep(max, front, last);
    BodyLengthIsTotal(got);
    PrefixGrows(BodyOf(Passed(max, front)), BodyOf(front), BodyOf(got));
  }

  /** What passes is a prefix of the body, no longer than the limit, and everything when it fits. */
  lemma {:induction false} PassedIsBoundedPrefix(max: int, got: seq<Inbound>)
    ensures BoundedPrefix(max, got)
  {
    if got != [] {
      PassedIsBoundedPrefix(max, got[..|got| - 1]);
      BoundedStep(max, got[..|got| - 1], got[|got| - 1]);
      assert got == got[..|got| - 1] + [got[|got| - 1]];
    }
  }

  lemma PrefixGrows(a: seq<Byte>, b: seq<Byte>, c: seq<Byte>)
    requires a <= b && b <= c
    ensures a <= c
  {
  }

  lemma DisconnectAddsNothing(got: seq<Inbound>)
    ensures BodyOf(got + [Disconnect]) == BodyOf(got) && Total(got + [Disconnect]) == Total(got)
  {
    AppendOne(0, got, Disconnect);
    assert BodyOf(got) + [] == BodyOf(got);
  }

  lemma {:induction false} GotIsPrefix(wire: seq<Inbound>, n: nat)
    ensures n <= |wire| ==> Got(wire, n) == wire[..n]
    ensures n >= |wire| ==> BodyOf(Got(wire, n)) == BodyOf(wire) && Total(Got(wire, n)) == Total(wire)
  {
    if n > 0 {
      GotIsPrefix(wire, n - 1);
      if n <= |wire| {
        OneMore(wire, n - 1);
      } else {
        DisconnectAddsNothing(Got(wire, n - 1));
      }
    }
    if n == |wire| {
      assert wire[..n] == wire;
    }
  }

  lemma {:induction false} BodyPrefix(wire: seq<Inbound>, n: nat)
    requires n <= |wire|
    ensures BodyOf(wire[..n]) <= BodyOf(wire) && Total(wire[..n]) <= Total(wire)
  {
    if n == |wire| {
      assert wire[..n] == wire;
    } else {
      assert wire[..|wire| - 1][..n] == wire[..n];
      BodyPrefix(wire[..|wire| - 1], n);
    }
  }

  lemma GotBody(wire: seq<Inbound>, n: nat)
    ensures BodyOf(Got(wire, n)) <= BodyOf(wire) && Total(Got(wire, n)) <= Total(wire)
  {
    GotIsPrefix(wire, n);
    if n <= |wire| {
      BodyPrefix(wire, n);
    }
  }

  ghost predicate HasChunk(got: seq<Inbound>) {
    exists i :: 0 <= i < |got| && got[i].Chunk?
  }

  /** Where a run stands: everything is determined by the messages read so far. */
  ghost predicate Reading(max: int, got: seq<Inbound>, s: State) {
    && s.delivered == Passed(max, got) && s.received == Total(got)
    && (s.tooLarge <==> HasChunk(got) && Total(got) > max)
  }

  lemma HasChunkOneMore(got: seq<Inbound>, m: Inbound)
    ensures HasChunk(got + [m]) <==> HasChunk(got) || m.Chunk?
  {
    var all := got + [m];
    assert all[|got|] == m;
    if i :| 0 <= i < |got| && got[i].Chunk? {
      assert all[i].Chunk?;
    }
  }

  /** Once over the limit the application is handed an empty chunk that ends the body, for every further one. */
  lemma {:induction false} PassedAt(max: int, got: seq<Inbound>, i: nat)
    requires i < |got|
    ensures |Passed(max, got)| == |got|
    ensures Passed(max, got)[i] == if got[i].Chunk? && Total(got[..i + 1]) > max then Chunk([], false) else got[i]
  {
    var n := |got| - 1;
    PassedLength(max, got[..n]);
    if i < n {
      PassedAt(max, got[..n], i);
      assert got[..n][..i + 1] == got[..i + 1];
    } else {
      assert got[..i + 1] == got;
    }
  }

  lemma {:induction false} PassedLength(max: int, got: seq<Inbound>)
    ensures |Passed(max, got)| == |got|
  {
    if got != [] {
      PassedLength(max, got[..|got| - 1]);
    }
  }

  /** What a whole request hands over, message by message. */
  lemma DeliveredAt(max: int, wire: seq<Inbound>, actions: seq<Action>, i: nat)
    ensures var d, n := Run(max, Fresh(wire), actions).delivered, Reads(max, wire, actions);
            && |d| == n
            && (i < n ==>
                  var got := Got(wire, n);
                  |got| == n && d[i] == if got[i].Chunk? && Total(got[..i + 1]) > max then Chunk([], false) else got[i])
  {
    var n := Reads(max, wire, actions);
    RunTracks(max, wire, actions);
    GotLength(wire, n);
    PassedLength(max, Got(wire, n));
    if i < n {
      PassedAt(max, Got(wire, n), i);
    }
  }

  lemma {:induction false} GotLength(wire: seq<Inbound>, n: nat)
    ensures |Got(wire, n)| == n
  {
    if n > 0 {
      GotLength(wire, n - 1);
    }
  }

  function Unread(wire: seq<Inbound>, n: nat): seq<Inbound> {
    wire[(if n <= |wire| then n else |wire|)..]
  }

  lemma StepKeepsReading(max: int, got: seq<Inbound>, s: State, a: Action)
    requires Reading(max, got, s)
    ensures Reading(max, if a.Receive? && s.ending == Running then got + [NextInbound(s.wire)] else got, Step(max, s, a))
  {
    AppendOne(max, got, NextInbound(s.wire));
    HasChunkOneMore(got, NextInbound(s.wire));
  }

  /** Effective reads of a run. */
  function Reads(max: int, wire: seq<Inbound>, actions: seq<Action>): nat
    decreases |actions|
  {
    if actions == [] then 0
    else
      var n := |actions| - 1;
      Reads(max, wire, actions[..n])
      + if actions[n].Receive? && Run(max, Fresh(wire), actions[..n]).ending == Running then 1 else 0
  }

  ghost predicate Tracks(max: int, wire: seq<Inbound>, n: nat, s: State) {
    Reading(max, Got(wire, n), s) && s.wire == Unread(wire, n)
  }

  lemma FreshTracks(max: int, wire: seq<Inbound>)
    ensures Tracks(max, wire, 0, Fresh(wire))
  {
  }

  lemma StepTracks(max: int, wire: seq<Inbound>, n: nat, s: State, a: Action)
    requires Tracks(max, wire, n, s)
    ensures Tracks(max, wire, if a.Receive? && s.ending == Running then n + 1 else n, Step(max, s, a))
  {
    StepKeepsReading(max, Got(wire, n), s, a);
    UnreadStep(wire, n);
  }

  lemma {:induction false} RunTracks(max: int, wire: seq<Inbound>, actions: seq<Action>)
    ensures Tracks(max, wire, Reads(max, wire, actions), Run(max, Fresh(wire), actions))
    decreases |actions|
  {
    if actions == [] {
      FreshTracks(max, wire);
    } else {
      var n := |actions| - 1;
      RunTracks(max, wire, actions[..n]);
      var k, s, a := Reads(max, wire, actions[..n]), Run(max, Fresh(wire), actions[..n]), actions[n];
      StepTracks(max, wire, k, s, a);
      assert Run(max, Fresh(wire), actions) == Step(max, s, a);
      assert Reads(max, wire, actions) == if a.Receive? && s.ending == Running then k + 1 else k;
    }
  }

  lemma UnreadStep(wire: seq<Inbound>, n: nat)
    ensures Got(wire, n + 1) == Got(wire, n) + [NextInbound(Unread(wire, n))]
    ensures Unread(wire, n + 1) == if Unread(wire, n) == [] then [] else Unread(wire, n)[1..]
  {
  }

  /** For every chunking and every application: what it reads is a prefix of the body of at most the limit,
      while the whole body fits the stream is passed on unchanged, and the request is flagged exactly when what
      was read of it exceeds the limit. */
  lemma {:induction false} ApplicationReadsBoundedPrefix(max: int, wire: seq<Inbound>, actions: seq<Action>)
    ensures var s := Run(max, Fresh(wire), actions);
            && BodyOf(s.delivered) <= BodyOf(wire) && |BodyOf(s.delivered)| <= (if max < 0 then 0 else max)
            && (Total(wire) <= max ==> !s.tooLarge && s.delivered == Got(wire, Reads(max, wire, actions)))
            && (s.tooLarge <==> HasChunk(Got(wire, Reads(max, wire, actions)))
                                && |BodyOf(Got(wire, Reads(max, wire, actions)))| > max)
  {
    RunTracks(max, wire, actions);
    var n := Reads(max, wire, actions);
    PassedIsBoundedPrefix(max, Got(wire, n));
    GotBody(wire, n);
    BodyLengthIsTotal(Got(wire, n));
    PrefixGrows(BodyOf(Passed(max, Got(wire, n))), BodyOf(Got(wire, n)), BodyOf(wire));
  }

  // ---------------------------------------------------------------- what the client can have seen

  function Starts(ms: seq<Outbound>): seq<nat> {
    if ms == [] then [] else Starts(ms[..|ms| - 1]) + if ms[|ms| - 1].Start? then [ms[|ms| - 1].status] else []
  }

  lemma {:induction false} StartsAppend(a: seq<Outbound>, b: seq<Outbound>)
    ensures Starts(a + b) == Starts(a) + Starts(b)
  {
    if b == [] {
      assert a + b == a;
    } else {
      assert (a + b)[..|a + b| - 1] == a + b[..|b| - 1];
      StartsAppend(a, b[..|b| - 1]);
    }
  }

  lemma RejectionStarts()
    ensures Starts(Rejection()) == [TOO_LARGE_STATUS]
  {
    assert Rejection()[..1] == [Start(TOO_LARGE_STATUS)];
    assert Starts(Rejection()[..1]) == Starts([]) + [TOO_LARGE_STATUS];
  }

  /** What an application sends while it is over the limit: its response starts raise, the rest passes, until
      it crashes or lets such an exception through. */
  function Forwarded(actions: seq<Action>): seq<Outbound>
    decreases |actions|
  {
    if actions == [] then []
    else
      var n := |actions| - 1;
      if actions[n].Send? && actions[n].message.Content? && !LetsThrough(actions[..n]) && NoCrash(actions[..n])
      then Forwarded(actions[..n]) + [Content]
      else Forwarded(actions[..n])
  }

  /** An application that lets an exception through as soon as it tries to start a response. */
  predicate LetsThrough(actions: seq<Action>) {
    exists i :: 0 <= i < |actions| && actions[i].Send? && actions[i].message.Start? && !actions[i].catches
                && forall j :: 0 <= j < i ==> !actions[j].Crash?
  }

  /** Where a run that started over the limit with client messages `before` stands. */
  ghost predicate OverLimit(before: seq<Outbound>, s: State, actions: seq<Action>) {
    && s.tooLarge
    && s.client == before + Forwarded(actions) + (if s.ending == Rejected then [Start(413), Content] else [])
    && (s.ending == Rejected <==> LetsThrough(actions))
    && (s.ending == Running <==> !LetsThrough(actions) && NoCrash(actions))
  }

  predicate NoCrash(actions: seq<Action>) {
    forall j :: 0 <= j < |actions| ==> !actions[j].Crash?
  }

  lemma NoCrashExtends(front: seq<Action>, a: Action)
    ensures NoCrash(front + [a]) <==> NoCrash(front) && !a.Crash?
  {
    assert (front + [a])[|front|] == a;
    assert forall j :: 0 <= j < |front| ==> (front + [a])[j] == front[j];
  }

  lemma ForwardedExtends(front: seq<Action>, a: Action)
    ensures Forwarded(front + [a])
            == Forwarded(front)
               + if a.Send? && a.message.Content? && !LetsThrough(front) && NoCrash(front) then [Content] else []
  {
    assert (front + [a])[..|front|] == front;
  }

  lemma StepOverLimit(max: int, before: seq<Outbound>, s: State, front: seq<Action>, a: Action)
    requires OverLimit(before, s, front)
    ensures OverLimit(before, Step(max, s, a), front + [a])
  {
    LetsThroughExtends(front + [a]);
    assert (front + [a])[..|front|] == front;
    NoCrashExtends(front, a);
    ForwardedExtends(front, a);
  }

  /** Once the limit is exceeded no response start of the application reaches the client any more: the only
      one that can is a single 413, sent exactly when the application lets the signal through. */
  lemma {:induction false} OnlyRejectionAfterLimit(max: int, s: State, actions: seq<Action>)
    requires s.tooLarge && s.ending == Running
    ensures OverLimit(s.client, Run(max, s, actions), actions)
    ensures Starts(Run(max, s, actions).client) == Starts(s.client) + if LetsThrough(actions) then [413] else []
    decreases |actions|
  {
    AfterLimit(max, s, actions);
    ForwardedStartsNothing(actions);
    RejectionStarts();
    StartsAppend(s.client, Forwarded(actions));
    if LetsThrough(actions) {
      StartsAppend(s.client + Forwarded(actions), Rejection());
    } else {
      assert s.client + Forwarded(actions) + [] == s.client + Forwarded(actions);
    }
  }

  lemma {:induction false} ForwardedStartsNothing(actions: seq<Action>)
    ensures Starts(Forwarded(actions)) == []
    decreases |actions|
  {
    if actions != [] {
      ForwardedStartsNothing(actions[..|actions| - 1]);
      StartsAppend(Forwarded(actions[..|actions| - 1]), [Content]);
      assert Starts([Content]) == [] by {
        assert [Content][..0] == [];
      }
    }
  }

  lemma {:induction false} AfterLimit(max: int, s: State, actions: seq<Action>)
    requires s.tooLarge && s.ending == Running
    ensures OverLimit(s.client, Run(max, s, actions), actions)
    decreases |actions|
  {
    if actions != [] {
      var n := |actions| - 1;
      AfterLimit(max, s, actions[..n]);
      StepOverLimit(max, s.client, Run(max, s, actions[..n]), actions[..n], actions[n]);
      assert actions == actions[..n] + [actions[n]];
    }
  }

  lemma LetsThroughExtends(actions: seq<Action>)
    requires actions != []
    ensures var n := |actions| - 1;
            LetsThrough(actions) <==>
              || LetsThrough(actions[..n])
              || (actions[n].Send? && actions[n].message.Start? && !actions[n].catches
                  && forall j :: 0 <= j < n ==> !actions[j].Crash?)
  {
    var n := |actions| - 1;
    if LetsThrough(actions[..n]) {
      var i :| 0 <= i < n && actions[..n][i].Send? && actions[..n][i].message.Start? && !actions[..n][i].catches
               && forall j :: 0 <= j < i ==> !actions[..n][j].Crash?;
      assert actions[i] == actions[..n][i];
      assert forall j :: 0 <= j < i ==> actions[j] == actions[..n][j];
    }
    if LetsThrough(actions) {
      var i :| 0 <= i < |actions| && actions[i].Send? && actions[i].message.Start? && !actions[i].catches
               && forall j :: 0 <= j < i ==> !actions[j].Crash?;
      if i < n {
        assert actions[..n][i] == actions[i];
      }
    }
  }

  // ---------------------------------------------------------------- requests within the limit

  /** What an application does before it fails on its own. */
  function Performed(actions: seq<Action>): seq<Action> {
    if actions == [] || actions[0].Crash? then [] else [actions[0]] + Performed(actions[1..])
  }

  function Messages(actions: seq<Action>): seq<Outbound> {
    if actions == [] then []
    else
      var front, last := Messages(actions[..|actions| - 1]), actions[|actions| - 1];
      if last.Send? then front + [last.message] else front
  }

  function Receives(actions: seq<Action>): nat {
    if actions == [] then 0
    else Receives(actions[..|actions| - 1]) + if actions[|actions| - 1].Receive? then 1 else 0
  }

  lemma {:induction false} PerformedOneMore(front: seq<Action>, a: Action)
    ensures Performed(front + [a]) == if NoCrash(front) && !a.Crash? then Performed(front) + [a] else Performed(front)
  {
    if front == [] {
      assert front + [a] == [a];
    } else {
      assert (front + [a])[1..] == front[1..] + [a];
      PerformedOneMore(front[1..], a);
      assert NoCrash(front) <==> !front[0].Crash? && NoCrash(front[1..]) by {
        assert front == [front[0]] + front[1..];
        assert forall j :: 0 <= j < |front| - 1 ==> front[1..][j] == front[j + 1];
      }
    }
  }

  lemma PerformedEffects(front: seq<Action>, a: Action)
    ensures Messages(front + [a]) == Messages(front) + if a.Send? then [a.message] else []
    ensures Receives(front + [a]) == Receives(front) + if a.Receive? then 1 else 0
  {
    assert (front + [a])[..|front|] == front;
    assert Messages(front) + [] == Messages(front);
  }

  /** Where a run within the limit stands: as if there were no guard. */
  ghost predicate Undisturbed(s: State, taken: nat, actions: seq<Action>) {
    && !s.tooLarge && s.client == Messages(Performed(actions)) && taken == Receives(Performed(actions))
    && s.ending == if NoCrash(actions) then Running else Crashed
  }

  lemma UndisturbedStep(max: int, s: State, taken: nat, front: seq<Action>, a: Action)
    requires Undisturbed(s, taken, front) && !Step(max, s, a).tooLarge
    ensures Undisturbed(Step(max, s, a), if a.Receive? && s.ending == Running then taken + 1 else taken, front + [a])
  {
    PerformedOneMore(front, a);
    PerformedEffects(Performed(front), a);
    NoCrashExtends(front, a);
  }

  lemma NeverFlagged(max: int, wire: seq<Inbound>, actions: seq<Action>)
    requires Total(wire) <= max
    ensures !Run(max, Fresh(wire), actions).tooLarge
  {
    ApplicationReadsBoundedPrefix(max, wire, actions);
  }

  lemma {:induction false} FittingRunIsUndisturbed(max: int, wire: seq<Inbound>, actions: seq<Action>)
    requires Total(wire) <= max
    ensures Undisturbed(Run(max, Fresh(wire), actions), Reads(max, wire, actions), actions)
    decreases |actions|
  {
    NeverFlagged(max, wire, actions);
    if actions != [] {
      var n := |actions| - 1;
      FittingRunIsUndisturbed(max, wire, actions[..n]);
      UndisturbedStep(max, Run(max, Fresh(wire), actions[..n]), Reads(max, wire, actions[..n]), actions[..n], actions[n]);
      assert actions == actions[..n] + [actions[n]];
    }
  }

  /** A request whose body fits is not disturbed: the application gets every message it asks for, the client gets
      every message the application sends, and the request ends as the application does. */
  lemma FittingRequestIsUndisturbed(max: int, declared: Option<int>, wire: seq<Inbound>, actions: seq<Action>)
    requires |BodyOf(wire)| <= max && (declared.Some? ==> declared.value <= max)
    ensures var s := Handled(max, declared, wire, actions);
            && s.client == Messages(Performed(actions))
            && s.delivered == Got(wire, Receives(Performed(actions)))
            && s.ending == if NoCrash(actions) then Returned else Crashed
  {
    BodyLengthIsTotal(wire);
    FittingRunIsUndisturbed(max, wire, actions);
    ApplicationReadsBoundedPrefix(max, wire, actions);
  }

  /** A request that declares more than the limit is answered without reading any of it, and the application is
      not called. */
  lemma OversizedDeclarationIsRejected(max: int, declared: int, wire: seq<Inbound>, actions: seq<Action>)
    requires declared > max
    ensures var s := Handled(max, Some(declared), wire, actions);
            s.client == [Start(413), Content] && s.delivered == [] && s.wire == wire && s.ending == Rejected
  {
  }
}
