/** The bounded buffer of API usage records: appended per request, written out in batches, drained at
    shutdown. */
module UsageBuffer {
  import opened Prelude

  /** What became of a record that is no longer in the buffer. */
  datatype Fate = Overflowed | Persisted | Lost | InFlight

  /** `buffer` and `inflight` are the program's; `persisted` is the database table; `history` and `fates`
      record every request ever logged and what became of those that left the buffer. */
  datatype State<R> = State(
    buffer: seq<R>, inflight: Option<seq<R>>, persisted: seq<R>, batches: seq<seq<R>>,
    history: seq<R>, fates: seq<Fate>)

  datatype Config = Config(maxLen: nat, batchSize: nat)

  datatype Event<R> = Record(r: R) | Begin | End(ok: bool)

  function Initial<R>(): State<R> {
    State([], None, [], [], [], [])
  }

  /** Appending to a full deque drops its oldest record; a deque of capacity zero keeps nothing. */
  function Pushed<R>(c: Config, buffer: seq<R>, r: R): seq<R> {
    if c.maxLen == 0 then [] else if |buffer| >= c.maxLen then buffer[1..] + [r] else buffer + [r]
  }

  function BatchOf<R>(c: Config, buffer: seq<R>): seq<R> {
    if |buffer| <= c.batchSize then buffer else buffer[..c.batchSize]
  }

  function Repeat(f: Fate, n: nat): (r: seq<Fate>)
    ensures |r| == n
  {
    seq(n, i => f)
  }

  function Settled(fates: seq<Fate>, outcome: Fate): (r: seq<Fate>)
    ensures |r| == |fates|
  {
    seq(|fates|, i requires 0 <= i < |fates| => if fates[i] == InFlight then outcome else fates[i])
  }

  function Next<R>(c: Config, s: State<R>, e: Event<R>): State<R> {
    match e
    case Record(r) =>
      s.(buffer := Pushed(c, s.buffer, r), history := s.history + [r],
         fates := if |s.buffer| >= c.maxLen then s.fates + [Overflowed] else s.fates)
    case Begin =>
      if s.inflight.Some? || s.buffer == [] then s
      else
        var batch := BatchOf(c, s.buffer);
        s.(buffer := s.buffer[|batch|..], inflight := Some(batch), fates := s.fates + Repeat(InFlight, |batch|))
    case End(ok) =>
      if s.inflight.None? then s
      else
        s.(inflight := None, fates := Settled(s.fates, if ok then Persisted else Lost),
           persisted := if ok then s.persisted + s.inflight.value else s.persisted,
           batches := if ok then s.batches + [s.inflight.value] else s.batches)
  }

  /** A record is kept while there is room; a full buffer gives up its oldest record for it, and a buffer without
      capacity keeps none. */
  lemma RecordIs<R>(c: Config, s: State<R>, r: R)
    requires |s.buffer| <= c.maxLen
    ensures var z := Next(c, s, Record(r));
            && z.history == s.history + [r] && z.persisted == s.persisted && z.inflight == s.inflight && z.batches == s.batches
            && (|s.buffer| < c.maxLen ==> z.buffer == s.buffer + [r] && z.fates == s.fates)
            && (|s.buffer| == c.maxLen > 0 ==> z.buffer == s.buffer[1..] + [r] && z.fates == s.fates + [Overflowed])
            && (c.maxLen == 0 ==> z.buffer == [] && z.fates == s.fates + [Overflowed])
  {
  }

  /** A flush takes the oldest records, as many as the batch size allows. */
  lemma BeginIs<R>(c: Config, s: State<R>)
    requires s.inflight.None? && s.buffer != []
    ensures var z := Next(c, s, Begin);
            var n := if |s.buffer| < c.batchSize then |s.buffer| else c.batchSize;
            && z.inflight == Some(s.buffer[..n]) && z.buffer == s.buffer[n..]
            && z.history == s.history && z.persisted == s.persisted && z.batches == s.batches
            && |z.fates| == |s.fates| + n && z.fates[..|s.fates|] == s.fates
            && forall i :: |s.fates| <= i < |z.fates| ==> z.fates[i] == InFlight
  {
    assert s.buffer[..|s.buffer|] == s.buffer;
    var n := if |s.buffer| < c.batchSize then |s.buffer| else c.batchSize;
    assert BatchOf(c, s.buffer) == s.buffer[..n];
  }

  /** A write persists the whole batch behind what is there, or loses it. */
  lemma EndIs<R>(c: Config, s: State<R>, ok: bool)
    requires s.inflight.Some?
    ensures var z := Next(c, s, End(ok));
            && z.inflight == None && z.buffer == s.buffer && z.history == s.history
            && z.persisted == s.persisted + (if ok then s.inflight.value else [])
            && |z.fates| == |s.fates|
            && forall i :: 0 <= i < |s.fates| ==>
                 z.fates[i] == if s.fates[i] == InFlight then (if ok then Persisted else Lost) else s.fates[i]
  {
    assert s.persisted + [] == s.persisted;
  }

  function Run<R>(c: Config, s: State<R>, es: seq<Event<R>>): State<R>
    decreases |es|
  {
    if es == [] then s else Next(c, Run(c, s, es[..|es| - 1]), es[|es| - 1])
  }

  /** A run is its events, one after the other. */
  lemma RunExtend<R>(c: Config, s: State<R>, es: seq<Event<R>>, e: Event<R>)
    ensures Run(c, s, []) == s && Run(c, s, es + [e]) == Next(c, Run(c, s, es), e)
  {
    assert (es + [e])[..|es|] == es;
  }

  // ---------------------------------------------------------------- the invariant

  /** The records with a given fate, in order. */
  function Select<R>(history: seq<R>, fates: seq<Fate>, f: Fate): seq<R>
    requires |fates| <= |history|
  {
    if fates == [] then []
    else
      var n := |fates| - 1;
      Select(history, fates[..n], f) + if fates[n] == f then [history[n]] else []
  }

  /** No record was persisted after the batch in flight was taken. */
  ghost predicate InOrder(fates: seq<Fate>) {
    forall i, j :: 0 <= i < j < |fates| && fates[i] == InFlight ==> fates[j] != Persisted
  }

  /** The buffer is what follows the departed records, and fits. */
  ghost predicate Placed<R>(c: Config, s: State<R>) {
    |s.fates| <= |s.history| && s.buffer == s.history[|s.fates|..] && |s.buffer| <= c.maxLen
  }

  function FlightOf<R>(s: State<R>): seq<R> {
    if s.inflight.Some? then s.inflight.value else []
  }

  /** The table and the batch in flight are the records whose fates say so. */
  ghost predicate Chosen<R>(s: State<R>) {
    && |s.fates| <= |s.history|
    && s.persisted == Select(s.history, s.fates, Persisted)
    && FlightOf(s) == Select(s.history, s.fates, InFlight)
    && InOrder(s.fates)
  }

  ghost predicate Batched<R>(c: Config, s: State<R>) {
    && s.persisted == Flatten(s.batches)
    && (forall k :: 0 <= k < |s.batches| ==> 0 < |s.batches[k]| <= c.batchSize)
    && (s.inflight.Some? ==> 0 < |s.inflight.value| <= c.batchSize)
  }

  ghost predicate Good<R>(c: Config, s: State<R>) {
    Placed(c, s) && Chosen(s) && Batched(c, s)
  }

  lemma {:induction false} SelectLonger<R>(history: seq<R>, more: seq<R>, fates: seq<Fate>, f: Fate)
    requires |fates| <= |history|
    ensures Select(history + more, fates, f) == Select(history, fates, f)
  {
    if fates != [] {
      SelectLonger(history, more, fates[..|fates| - 1], f);
    }
  }

  lemma {:induction false} SelectRepeat<R>(history: seq<R>, fates: seq<Fate>, g: Fate, n: nat, f: Fate)
    requires |fates| + n <= |history|
    ensures Select(history, fates + Repeat(g, n), f)
            == Select(history, fates, f) + if f == g then history[|fates|..|fates| + n] else []
  {
    if n == 0 {
      assert fates + Repeat(g, 0) == fates;
    } else {
      SelectRepeat(history, fates, g, n - 1, f);
      assert (fates + Repeat(g, n))[..|fates| + n - 1] == fates + Repeat(g, n - 1);
      var m := |fates|;
      assert history[m..m + n - 1] + [history[m + n - 1]] == history[m..m + n];
    }
  }

  lemma {:induction false} NoneInFlight<R>(history: seq<R>, fates: seq<Fate>)
    requires |fates| <= |history| && Select(history, fates, InFlight) == []
    ensures forall i :: 0 <= i < |fates| ==> fates[i] != InFlight
  {
    if fates != [] {
      NoneInFlight(history, fates[..|fates| - 1]);
    }
  }

  lemma SelectOneMore<R>(history: seq<R>, fates: seq<Fate>, x: Fate, f: Fate)
    requires |fates| < |history|
    ensures Select(history, fates + [x], f) == if x == f then Select(history, fates, f) + [history[|fates|]] else Select(history, fates, f)
  {
    assert (fates + [x])[..|fates|] == fates;
    assert Select(history, fates, f) + [] == Select(history, fates, f);
  }

  lemma SettledOneMore(fates: seq<Fate>, x: Fate, outcome: Fate)
    ensures Settled(fates + [x], outcome) == Settled(fates, outcome) + [if x == InFlight then outcome else x]
  {
  }

  /** After settling nothing is in flight any more. */
  lemma NoneStaysInFlight<R>(history: seq<R>, fates: seq<Fate>, outcome: Fate)
    requires |fates| <= |history| && outcome != InFlight
    ensures Select(history, Settled(fates, outcome), InFlight) == []
  {
    NothingSelected(history, Settled(fates, outcome));
  }

  /** One more record: what it adds to the persisted ones after settling. */
  lemma SettledStep<R>(history: seq<R>, front: seq<Fate>, last: Fate, outcome: Fate)
    requires |front| < |history| && outcome != InFlight
    ensures Select(history, Settled(front + [last], outcome), Persisted)
            == Select(history, Settled(front, outcome), Persisted)
               + if last == Persisted || (last == InFlight && outcome == Persisted) then [history[|front|]] else []
  {
    SettledOneMore(front, last, outcome);
    SelectOneMore(history, Settled(front, outcome), if last == InFlight then outcome else last, Persisted);
    var before := Select(history, Settled(front, outcome), Persisted);
    assert before + [] == before;
  }

  /** The same of the persisted records with those in flight behind them. */
  lemma UnsettledStep<R>(history: seq<R>, front: seq<Fate>, last: Fate, ok: bool)
    requires |front| < |history| && (last == Persisted ==> Select(history, front, InFlight) == [])
    ensures var flight, flight' := Select(history, front, InFlight), Select(history, front + [last], InFlight);
            Select(history, front + [last], Persisted) + (if ok then flight' else [])
            == Select(history, front, Persisted) + (if ok then flight else [])
               + if last == Persisted || (last == InFlight && ok) then [history[|front|]] else []
  {
    SelectOneMore(history, front, last, Persisted);
    SelectOneMore(history, front, last, InFlight);
  }

  /** Settling the batch in flight turns exactly its records into the outcome, after everything that had
      that fate before. */
  lemma {:induction false} SelectSettled<R>(history: seq<R>, fates: seq<Fate>, outcome: Fate)
    requires |fates| <= |history| && outcome != InFlight && InOrder(fates)
    ensures Select(history, Settled(fates, outcome), Persisted)
            == Select(history, fates, Persisted) + if outcome == Persisted then Select(history, fates, InFlight) else []
  {
    if fates != [] {
      var n := |fates| - 1;
      var front, last := fates[..n], fates[n];
      assert fates == front + [last];
      SelectSettled(history, front, outcome);
      if last == Persisted {
        NoneBefore(fates, n);
        NothingSelected(history, front);
      }
      SettledStep(history, front, last, outcome);
      UnsettledStep(history, front, last, outcome == Persisted);
    }
  }

  lemma NoneBefore(fates: seq<Fate>, n: nat)
    requires InOrder(fates) && n < |fates| && fates[n] == Persisted
    ensures forall i :: 0 <= i < n ==> fates[..n][i] != InFlight
  {
  }

  lemma {:induction false} NothingSelected<R>(history: seq<R>, fates: seq<Fate>)
    requires |fates| <= |history| && forall i :: 0 <= i < |fates| ==> fates[i] != InFlight
    ensures Select(history, fates, InFlight) == []
  {
    if fates != [] {
      NothingSelected(history, fates[..|fates| - 1]);
    }
  }

  /** Appending `n` equal fates to the departed records, with the selections this leaves. */
  lemma DepartKeeps<R>(history: seq<R>, history': seq<R>, fates: seq<Fate>, g: Fate, n: nat, f: Fate)
    requires |fates| <= |history| <= |history'| && history'[..|history|] == history && |fates| + n <= |history'|
    ensures Select(history', fates + Repeat(g, n), f)
            == if f == g then Select(history, fates, f) + history'[|fates|..|fates| + n] else Select(history, fates, f)
  {
    assert history' == history + history'[|history|..];
    SelectLonger(history, history'[|history|..], fates, f);
    SelectRepeat(history', fates, g, n, f);
  }

  lemma DepartKeepsOrder(fates: seq<Fate>, g: Fate, n: nat)
    requires InOrder(fates) && g != Persisted
    ensures InOrder(fates + Repeat(g, n))
  {
  }

  lemma SuffixAfterPush<R>(c: Config, history: seq<R>, m: nat, r: R)
    requires m <= |history| && |history| - m <= c.maxLen
    ensures Pushed(c, history[m..], r) == (history + [r])[(if |history| - m >= c.maxLen then m + 1 else m)..]
    ensures |Pushed(c, history[m..], r)| <= c.maxLen
  {
  }

  lemma BatchSplits<R>(c: Config, history: seq<R>, m: nat)
    requires m < |history| && c.batchSize > 0
    ensures var batch := BatchOf(c, history[m..]);
            && 0 < |batch| <= c.batchSize && m + |batch| <= |history|
            && batch == history[m..m + |batch|] && history[m..][|batch|..] == history[m + |batch|..]
  {
  }

  /** Departures leave the table and the batch in flight as they were, or put the departed in flight. */
  lemma DepartKeepsChosen<R>(s: State<R>, t: State<R>, g: Fate, n: nat)
    requires Chosen(s) && g != Persisted
    requires |s.history| <= |t.history| && t.history[..|s.history|] == s.history && |s.fates| + n <= |t.history|
    requires t.fates == s.fates + Repeat(g, n) && t.persisted == s.persisted
    requires FlightOf(t) == if g == InFlight then FlightOf(s) + t.history[|s.fates|..|s.fates| + n] else FlightOf(s)
    ensures Chosen(t)
  {
    DepartKeeps(s.history, t.history, s.fates, g, n, Persisted);
    DepartKeeps(s.history, t.history, s.fates, g, n, InFlight);
    DepartKeepsOrder(s.fates, g, n);
  }

  lemma RecordKeepsGood<R>(c: Config, s: State<R>, r: R)
    requires Good(c, s)
    ensures Good(c, Next(c, s, Record(r)))
  {
    var t, n := Next(c, s, Record(r)), if |s.buffer| >= c.maxLen then 1 else 0;
    assert t.fates == s.fates + Repeat(Overflowed, n);
    SuffixAfterPush(c, s.history, |s.fates|, r);
    assert Placed(c, t);
    DepartKeepsChosen(s, t, Overflowed, n);
  }

  lemma BeginKeepsGood<R>(c: Config, s: State<R>)
    requires Good(c, s) && c.batchSize > 0
    ensures Good(c, Next(c, s, Begin))
  {
    if s.inflight.None? && s.buffer != [] {
      var t, batch, m := Next(c, s, Begin), BatchOf(c, s.buffer), |s.fates|;
      BatchSplits(c, s.history, m);
      assert Placed(c, t);
      assert [] + s.history[m..m + |batch|] == batch;
      DepartKeepsChosen(s, t, InFlight, |batch|);
    }
  }

  lemma SettleKeepsChosen<R>(s: State<R>, t: State<R>, outcome: Fate)
    requires Chosen(s) && (outcome == Persisted || outcome == Lost)
    requires t.history == s.history && t.fates == Settled(s.fates, outcome) && t.inflight.None?
    requires t.persisted == if outcome == Persisted then s.persisted + FlightOf(s) else s.persisted
    ensures Chosen(t)
  {
    SelectSettled(s.history, s.fates, outcome);
    NoneStaysInFlight(s.history, s.fates, outcome);
    assert s.persisted + [] == s.persisted;
  }

  lemma EndKeepsGood<R>(c: Config, s: State<R>, ok: bool)
    requires Good(c, s)
    ensures Good(c, Next(c, s, End(ok)))
  {
    if s.inflight.Some? {
      SettleKeepsChosen(s, Next(c, s, End(ok)), if ok then Persisted else Lost);
      FlattenOneMore(s.batches, s.inflight.value);
    }
  }

  lemma {:induction false} RunKeepsGood<R>(c: Config, es: seq<Event<R>>)
    requires c.batchSize > 0
    ensures Good(c, Run(c, Initial(), es))
    decreases |es|
  {
    if es != [] {
      RunKeepsGood(c, es[..|es| - 1]);
      var s := Run(c, Initial(), es[..|es| - 1]);
      match es[|es| - 1]
      case Record(r) => RecordKeepsGood(c, s, r);
      case Begin => BeginKeepsGood(c, s);
      case End(ok) => EndKeepsGood(c, s, ok);
    }
  }

  /** For every interleaving of requests and flushes: the buffer is the newest part of the history and
      within its limit; each record before it has exactly one fate; and the table holds, in order, the
      records whose fate is persisted, written in batches of at most the batch size. */
  lemma EveryRecordIsAccountedFor<R>(c: Config, es: seq<Event<R>>)
    requires c.batchSize > 0
    ensures var s := Run(c, Initial(), es);
            && |s.buffer| <= c.maxLen && |s.fates| + |s.buffer| == |s.history|
            && s.buffer == s.history[|s.fates|..]
            && s.persisted == Select(s.history, s.fates, Persisted) == Flatten(s.batches)
            && (forall k :: 0 <= k < |s.batches| ==> 0 < |s.batches[k]| <= c.batchSize)
  {
    RunKeepsGood(c, es);
  }

  // ---------------------------------------------------------------- the program

  /** What draining writes, when flush number `k` of the drain succeeds exactly if `writes(k)`. */
  function Drained<R>(c: Config, s: State<R>, writes: nat -> bool, k: nat): State<R>
    requires c.batchSize > 0 && s.inflight.None?
    decreases |s.buffer|
  {
    if s.buffer == [] then s
    else
      var t := Next(c, Next(c, s, Begin), End(writes(k)));
      if writes(k) then Drained(c, t, writes, k + 1) else t
  }

  class UsageLog<R> {
    const config: Config
    var buffer: seq<R>
    var persisted: seq<R>
    ghost var inflight: Option<seq<R>>
    ghost var batches: seq<seq<R>>
    ghost var history: seq<R>
    ghost var fates: seq<Fate>

    ghost function Now(): State<R>
      reads this
    {
      State(buffer, inflight, persisted, batches, history, fates)
    }

    constructor (config: Config)
      ensures this.config == config && Now() == Initial()
    {
      this.config := config;
      buffer, persisted := [], [];
      inflight, batches, history, fates := None, [], [], [];
    }

    /** `deque.append` on a bounded deque. */
    method Append(r: R)
      modifies this
      ensures Now() == Next(config, old(Now()), Record(r))
    {
      history := history + [r];
      fates := if |buffer| >= config.maxLen then fates + [Overflowed] else fates;
      if config.maxLen == 0 {
        buffer := [];
        return;
      }
      if |buffer| >= config.maxLen {
        buffer := buffer[1..];
      }
      buffer := buffer + [r];
    }

    /** Pops a batch from the left; nothing else runs until the write is awaited. */
    method TakeBatch() returns (batch: seq<R>)
      requires inflight.None? && buffer != [] && config.batchSize > 0 && |buffer| <= config.maxLen
      modifies this
      ensures Now() == Next(config, old(Now()), Begin) && inflight == Some(batch)
      ensures |batch| > 0
    {
      batch := [];
      ghost var before := buffer;
      while buffer != [] && |batch| < config.batchSize
        invariant before == batch + buffer && |batch| <= config.batchSize
        invariant unchanged(this`persisted, this`inflight, this`batches, this`history, this`fates)
        decreases |buffer|
      {
        batch := batch + [buffer[0]];
        buffer := buffer[1..];
      }
      PoppedIsBatch(config, before, batch, buffer);
      inflight := Some(batch);
      fates := fates + Repeat(InFlight, |batch|);
    }

    /** The awaited write; records appended meanwhile are already in the buffer. */
    method Write(batch: seq<R>, ok: bool) returns (count: nat)
      requires inflight == Some(batch)
      modifies this
      ensures Now() == Next(config, old(Now()), End(ok)) && count == if ok then |batch| else 0
    {
      inflight := None;
      fates := Settled(fates, if ok then Persisted else Lost);
      if !ok {
        return 0;
      }
      persisted := persisted + batch;
      batches := batches + [batch];
      count := |batch|;
    }

    method FlushOnce(ok: bool) returns (count: nat)
      requires inflight.None? && config.batchSize > 0 && |buffer| <= config.maxLen
      modifies this
      ensures Now() == if old(buffer) == [] then old(Now())
                       else Next(config, Next(config, old(Now()), Begin), End(ok))
      ensures count == if old(buffer) == [] || !ok then 0 else |BatchOf(config, old(buffer))|
    {
      if buffer == [] {
        return 0;
      }
      var batch := TakeBatch();
      count := Write(batch, ok);
    }

    /** The shutdown drain: flush until empty or until a flush writes nothing. */
    method Drain(writes: nat -> bool)
      requires inflight.None? && config.batchSize > 0 && |buffer| <= config.maxLen
      modifies this
      ensures Now() == Drained(config, old(Now()), writes, 0)
    {
      ghost var whole := Drained(config, Now(), writes, 0);
      var k := 0;
      while buffer != []
        invariant inflight.None? && |buffer| <= config.maxLen
        invariant whole == Drained(config, Now(), writes, k)
        decreases |buffer|
      {
        var n := FlushOnce(writes(k));
        k := k + 1;
        if n == 0 {
          break;
        }
      }
    }
  }

  lemma PoppedIsBatch<R>(c: Config, before: seq<R>, batch: seq<R>, rest: seq<R>)
    requires before == batch + rest && |batch| <= c.batchSize && (rest == [] || |batch| == c.batchSize)
    ensures batch == BatchOf(c, before) && rest == before[|batch|..]
  {
  }

  lemma BatchThenRest<R>(c: Config, persisted: seq<R>, buffer: seq<R>)
    ensures var batch := BatchOf(c, buffer);
            |batch| <= |buffer| && persisted + batch + buffer[|batch|..] == persisted + buffer
  {
    assert buffer == BatchOf(c, buffer) + buffer[|BatchOf(c, buffer)|..];
  }

  /** When every write succeeds the drain empties the buffer into the table, in order. */
  lemma {:induction false} SuccessfulDrainPersistsAll<R>(c: Config, s: State<R>, writes: nat -> bool, k: nat)
    requires c.batchSize > 0 && s.inflight.None? && forall j :: writes(j)
    ensures Drained(c, s, writes, k).buffer == []
    ensures Drained(c, s, writes, k).persisted == s.persisted + s.buffer
    decreases |s.buffer|
  {
    if s.buffer == [] {
      assert s.persisted + [] == s.persisted;
    } else {
      var t := Next(c, Next(c, s, Begin), End(true));
      var batch := BatchOf(c, s.buffer);
      assert t.buffer == s.buffer[|batch|..] && t.persisted == s.persisted + batch;
      SuccessfulDrainPersistsAll(c, t, writes, k + 1);
      BatchThenRest(c, s.persisted, s.buffer);
    }
  }

  /** A failed write stops the drain: that batch is lost and the rest stays in the buffer. */
  lemma FailedWriteStopsDrain<R>(c: Config, s: State<R>, writes: nat -> bool, k: nat)
    requires c.batchSize > 0 && s.inflight.None? && s.buffer != [] && !writes(k)
    ensures var t := Drained(c, s, writes, k);
            t.persisted == s.persisted && BatchOf(c, s.buffer) + t.buffer == s.buffer
  {
  }
}
