/** The blacklist over every schedule of calls, Redis writes and failures, against an ideal revocation set. */
module TokenSchedules {
  import opened Prelude
  import opened MemoryBlacklist
  import opened TokenBlacklist

  /** The end of one call of this process, or a write carried out by the shared Redis. Calls may overlap:
      `skips` is decided when a call starts, so it is arbitrary here, and a write is an event of its own,
      of any process, this one included, whether or not its caller ever hears of it. */
  datatype Event =
    | Add(jti: string, ttl: int, skips: bool, now: int, reply: Reply)
    | Check(jti: string, skips: bool, now: int, reply: Reply)
    | Set(jti: string, ttl: int, now: int)

  /** `ideal` is the unbounded dictionary this process would keep if it never had to forget; `server` is
      what Redis holds; `peak` is the latest expiry anyone ever asked for. */
  datatype World = World(
    clock: int, service: Service, ideal: map<string, int>, server: map<string, int>, peak: map<string, int>)

  function Later(m: map<string, int>, jti: string, expiry: int): map<string, int> {
    m[jti := if jti in m && m[jti] > expiry then m[jti] else expiry]
  }

  function Next(c: Config, w: World, e: Event): World {
    match e
    case Add(jti, ttl, skips, now, reply) =>
      if ttl <= 0 then w.(clock := now)
      else World(now, Revoked(c, w.service, jti, ttl, skips || !c.hasRedis, now, reply), w.ideal[jti := now + ttl],
                 w.server, Later(w.peak, jti, now + ttl))
    case Check(jti, skips, now, reply) =>
      w.(clock := now, service := Checked(c, w.service, jti, skips || !c.hasRedis, now, reply))
    case Set(jti, ttl, now) =>
      if ttl <= 0 then w.(clock := now)
      else w.(clock := now, server := w.server[jti := now + ttl], peak := Later(w.peak, jti, now + ttl))
  }

  function Initial(c: Config, clock: int): World {
    World(clock, Service(c.hasRedis, 0, Store([], map[])), map[], map[], map[])
  }

  function Run(c: Config, w: World, es: seq<Event>): World
    decreases |es|
  {
    if es == [] then w else Next(c, Run(c, w, es[..|es| - 1]), es[|es| - 1])
  }

  /** A schedule is its events, one after the other. */
  lemma RunExtend(c: Config, w: World, es: seq<Event>, e: Event)
    ensures Run(c, w, []) == w && Run(c, w, es + [e]) == Next(c, Run(c, w, es), e)
  {
    assert (es + [e])[..|es|] == es;
  }

  /** The event is a revocation of the token by this process, or a write of one to Redis. */
  predicate Asks(e: Event, jti: string, add: bool) {
    (if add then e.Add? else e.Set?) && e.jti == jti && e.ttl > 0
  }

  ghost predicate SomeLives(es: seq<Event>, jti: string, now: int) {
    exists k :: 0 <= k < |es| && (Asks(es[k], jti, true) || Asks(es[k], jti, false)) && now < es[k].now + es[k].ttl
  }

  ghost predicate IsLast(es: seq<Event>, jti: string, add: bool, k: int) {
    0 <= k < |es| && Asks(es[k], jti, add) && forall m :: k < m < |es| ==> !Asks(es[m], jti, add)
  }

  /** The last such event has not run out. */
  ghost predicate LastLives(es: seq<Event>, jti: string, add: bool, now: int) {
    exists k :: IsLast(es, jti, add, k) && now < es[k].now + es[k].ttl
  }

  lemma SomeOneMore(es: seq<Event>, e: Event, jti: string, now: int)
    ensures SomeLives(es + [e], jti, now)
            <==> SomeLives(es, jti, now) || ((Asks(e, jti, true) || Asks(e, jti, false)) && now < e.now + e.ttl)
  {
    var all := es + [e];
    assert all[|es|] == e;
    assert forall k :: 0 <= k < |es| ==> all[k] == es[k];
  }

  lemma IsLastOneMore(es: seq<Event>, e: Event, jti: string, add: bool, k: int)
    ensures IsLast(es + [e], jti, add, k) <==> if Asks(e, jti, add) then k == |es| else IsLast(es, jti, add, k)
  {
    var all := es + [e];
    assert all[|es|] == e;
    assert forall m :: 0 <= m < |es| ==> all[m] == es[m];
  }

  lemma LastOneMore(es: seq<Event>, e: Event, jti: string, add: bool, now: int)
    ensures LastLives(es + [e], jti, add, now)
            <==> if Asks(e, jti, add) then now < e.now + e.ttl else LastLives(es, jti, add, now)
  {
    forall k
      ensures IsLast(es + [e], jti, add, k) <==> if Asks(e, jti, add) then k == |es| else IsLast(es, jti, add, k)
    {
      IsLastOneMore(es, e, jti, add, k);
    }
    assert (es + [e])[|es|] == e;
    assert forall m :: 0 <= m < |es| ==> (es + [e])[m] == es[m];
  }

  /** What the dictionaries of a schedule stand for: a token is live in the ideal one exactly when this process's
      last revocation of it has not run out, in Redis when the last write has not, and in the record of all requests
      when any of them has not. */
  lemma {:induction false} DictionariesAre(c: Config, clock: int, es: seq<Event>, jti: string, now: int)
    ensures var w := Run(c, Initial(c, clock), es);
            && (jti in w.ideal && now < w.ideal[jti] <==> LastLives(es, jti, true, now))
            && (jti in w.server && now < w.server[jti] <==> LastLives(es, jti, false, now))
            && (jti in w.peak && now < w.peak[jti] <==> SomeLives(es, jti, now))
    decreases |es|
  {
    if es != [] {
      var front, last := es[..|es| - 1], es[|es| - 1];
      DictionariesAre(c, clock, front, jti, now);
      assert es == front + [last];
      SomeOneMore(front, last, jti, now);
      LastOneMore(front, last, jti, true, now);
      LastOneMore(front, last, jti, false, now);
    }
  }

  /** What a call leaves of the process itself, and when it is. */
  lemma ServiceIs(c: Config, w: World, jti: string, ttl: int, skips: bool, now: int, reply: Reply)
    ensures Next(c, w, Add(jti, ttl, skips, now, reply)).service == Revoked(c, w.service, jti, ttl, skips || !c.hasRedis, now, reply)
    ensures Next(c, w, Check(jti, skips, now, reply)).service == Checked(c, w.service, jti, skips || !c.hasRedis, now, reply)
    ensures Next(c, w, Set(jti, ttl, now)).service == w.service
    ensures Next(c, w, Add(jti, ttl, skips, now, reply)).clock == Next(c, w, Check(jti, skips, now, reply)).clock
            == Next(c, w, Set(jti, ttl, now)).clock == now
  {
  }

  /** The clock never runs backwards along the events. */
  ghost predicate WellTimed(c: Config, w: World, es: seq<Event>)
    decreases |es|
  {
    es != [] ==>
      var n := |es| - 1;
      WellTimed(c, w, es[..n]) && Run(c, w, es[..n]).clock <= es[n].now
  }

  /** Whenever this process revokes a token, fewer revocations than the limit are still live. */
  ghost predicate Roomy(c: Config, w: World, es: seq<Event>)
    decreases |es|
  {
    es != [] ==>
      var n := |es| - 1;
      && Roomy(c, w, es[..n])
      && (es[n].Add? ==> |LiveMap(Run(c, w, es[..n]).ideal, es[n].now)| < AtLeastOne(c.maxEntries))
  }

  ghost predicate Sound(c: Config, w: World) {
    && Coherent(w.service.memory)
    && Agree(w.service.memory, w.ideal, w.clock)
  }

  lemma AddKeepsAgreement(c: Config, memory: Store, ideal: map<string, int>, jti: string, ttl: int, now: int)
    requires Coherent(memory) && Agree(memory, ideal, now) && ttl > 0
    requires |LiveMap(ideal, now)| < AtLeastOne(c.maxEntries)
    ensures Coherent(Added(memory, c.maxEntries, jti, ttl, now))
    ensures Agree(Added(memory, c.maxEntries, jti, ttl, now), ideal[jti := now + ttl], now)
  {
    AddAgreesIff(memory, c.maxEntries, ideal, jti, ttl, now);
    AddedIsCoherent(memory, c.maxEntries, jti, ttl, now);
  }

  lemma CheckKeepsAgreement(memory: Store, ideal: map<string, int>, jti: string, now: int)
    requires Coherent(memory) && Agree(memory, ideal, now)
    ensures Coherent(LookedUp(memory, jti, now)) && Agree(LookedUp(memory, jti, now), ideal, now)
  {
    LookUpKeepsLive(memory, jti, now);
    WithoutIsCoherent(memory, {jti});
  }

  lemma NextKeepsSound(c: Config, w: World, e: Event)
    requires Sound(c, w) && w.clock <= e.now
    requires e.Add? ==> |LiveMap(w.ideal, e.now)| < AtLeastOne(c.maxEntries)
    ensures Sound(c, Next(c, w, e))
  {
    AgreeLater(w.service.memory, w.ideal, w.clock, e.now);
    NextMemory(c, w, e);
    var memory, ideal := w.service.memory, w.ideal;
    if e.Add? && e.ttl > 0 {
      AddKeepsAgreement(c, memory, ideal, e.jti, e.ttl, e.now);
    } else if e.Check? {
      CheckKeepsAgreement(memory, ideal, e.jti, e.now);
    }
  }

  /** What an event does to the in-process dictionary and to its ideal. */
  lemma NextMemory(c: Config, w: World, e: Event)
    ensures var memory, memory' := w.service.memory, Next(c, w, e).service.memory;
            && Next(c, w, e).clock == e.now
            && (e.Add? && e.ttl > 0 ==>
                  memory' == Added(memory, c.maxEntries, e.jti, e.ttl, e.now)
                  && Next(c, w, e).ideal == w.ideal[e.jti := e.now + e.ttl])
            && (e.Check? ==> memory' == memory || memory' == LookedUp(memory, e.jti, e.now))
            && (e.Set? || (e.Add? && e.ttl <= 0) ==> memory' == memory)
            && (!e.Add? || e.ttl <= 0 ==> Next(c, w, e).ideal == w.ideal)
  {
  }

  lemma {:induction false} RunKeepsSound(c: Config, clock: int, es: seq<Event>)
    requires WellTimed(c, Initial(c, clock), es) && Roomy(c, Initial(c, clock), es)
    ensures Sound(c, Run(c, Initial(c, clock), es))
    decreases |es|
  {
    if es != [] {
      RunKeepsSound(c, clock, es[..|es| - 1]);
      NextKeepsSound(c, Run(c, Initial(c, clock), es[..|es| - 1]), es[|es| - 1]);
    }
  }

  /** No missed revocation: unless the operator chose fallback "open", after any schedule of failures,
      cooldowns, recoveries and overlapping calls, and whatever Redis answers now, a token this process
      revoked is reported revoked until its latest TTL ends. */
  lemma RevokedStaysRevoked(c: Config, clock: int, es: seq<Event>, jti: string, skips: bool, now: int, reply: Reply)
    requires WellTimed(c, Initial(c, clock), es) && Roomy(c, Initial(c, clock), es)
    requires Run(c, Initial(c, clock), es).clock <= now
    requires c.fallback != "open"
    ensures var w := Run(c, Initial(c, clock), es);
            jti in LiveMap(w.ideal, now) ==> Answer(c, w.service, jti, skips, now, reply)
  {
    RunKeepsSound(c, clock, es);
    var w := Run(c, Initial(c, clock), es);
    AgreeLater(w.service.memory, w.ideal, w.clock, now);
  }

  /** With fallback "open" a lookup only ever trusts a fresh Redis hit: without Redis, or while it is
      failing, nothing is revoked at all. */
  lemma OpenTrustsOnlyRedis(c: Config, s: Service, jti: string, skips: bool, now: int, reply: Reply)
    requires c.fallback == "open"
    ensures Answer(c, s, jti, skips, now, reply) <==> !skips && reply == Replied(true)
  {
  }

  /** Every entry anywhere stays within some revocation window that was really requested. */
  ghost predicate Requested(w: World) {
    && (forall j :: j in w.service.memory.expiry ==> j in w.peak && w.service.memory.expiry[j] <= w.peak[j])
    && (forall j :: j in w.server ==> j in w.peak && w.server[j] <= w.peak[j])
    && forall j :: j in w.ideal ==> j in w.peak && w.ideal[j] <= w.peak[j]
  }

  lemma {:induction false} RunKeepsRequested(c: Config, clock: int, es: seq<Event>)
    ensures Requested(Run(c, Initial(c, clock), es))
    decreases |es|
  {
    if es != [] {
      var w, e := Run(c, Initial(c, clock), es[..|es| - 1]), es[|es| - 1];
      RunKeepsRequested(c, clock, es[..|es| - 1]);
      NextKeepsRequested(c, w, e);
    }
  }

  lemma NextKeepsRequested(c: Config, w: World, e: Event)
    requires Requested(w)
    ensures Requested(Next(c, w, e))
  {
    NextMemory(c, w, e);
    if e.Add? && e.ttl > 0 {
      AddedWithin(w.service.memory, c.maxEntries, e.jti, e.ttl, e.now);
    }
  }

  /** Redis answering with what it holds, or not at all. */
  function Truth(w: World, jti: string, now: int, up: bool): Reply {
    if up then Replied(jti in LiveMap(w.server, now)) else Failed
  }

  /** No invented revocation: when Redis answers with what it holds and the fallback is not "closed", a
      token reported revoked is inside a window that some process asked for. */
  lemma ReportedWasRevoked(c: Config, clock: int, es: seq<Event>, jti: string, skips: bool, now: int, up: bool)
    requires c.fallback != "closed"
    ensures var w := Run(c, Initial(c, clock), es);
            Answer(c, w.service, jti, skips, now, Truth(w, jti, now, up)) ==> jti in LiveMap(w.peak, now)
  {
    RunKeepsRequested(c, clock, es);
  }

  /** With fallback "memory" the bounded, failing pair answers exactly like an ideal unbounded dictionary of
      this process's own revocations beside the Redis that happens to be reachable. */
  lemma AgreesWithIdealSet(c: Config, clock: int, es: seq<Event>, jti: string, skips: bool, now: int, reply: Reply)
    requires WellTimed(c, Initial(c, clock), es) && Roomy(c, Initial(c, clock), es)
    requires Run(c, Initial(c, clock), es).clock <= now
    requires c.fallback != "open" && c.fallback != "closed"
    ensures var w := Run(c, Initial(c, clock), es);
            Answer(c, w.service, jti, skips, now, reply)
            <==> jti in LiveMap(w.ideal, now) || (!skips && reply == Replied(true))
  {
    RunKeepsSound(c, clock, es);
    var w := Run(c, Initial(c, clock), es);
    AgreeLater(w.service.memory, w.ideal, w.clock, now);
  }

  /** For every fallback: a lookup that Redis answers is a hit there, or, unless the fallback is "open", a
      revocation of this process that has not run out. */
  lemma AnsweredByRedisIff(c: Config, clock: int, es: seq<Event>, jti: string, now: int, hit: bool)
    requires WellTimed(c, Initial(c, clock), es) && Roomy(c, Initial(c, clock), es)
    requires Run(c, Initial(c, clock), es).clock <= now
    ensures var w := Run(c, Initial(c, clock), es);
            Answer(c, w.service, jti, false, now, Replied(hit))
            <==> hit || (c.fallback != "open" && jti in w.ideal && now < w.ideal[jti])
  {
    RunKeepsSound(c, clock, es);
    var w := Run(c, Initial(c, clock), es);
    AgreeLater(w.service.memory, w.ideal, w.clock, now);
    assert jti in LiveMap(w.service.memory.expiry, now) <==> jti in LiveMap(w.ideal, now);
  }

  /** A lookup that Redis does not answer is refused with "closed", let through with "open", and otherwise decided
      by this process's own revocations. */
  lemma UnansweredIff(c: Config, clock: int, es: seq<Event>, jti: string, skips: bool, now: int, reply: Reply)
    requires WellTimed(c, Initial(c, clock), es) && Roomy(c, Initial(c, clock), es)
    requires Run(c, Initial(c, clock), es).clock <= now && (skips || reply == Failed)
    ensures var w := Run(c, Initial(c, clock), es);
            Answer(c, w.service, jti, skips, now, reply)
            <==> c.fallback == "closed" || (c.fallback != "open" && jti in w.ideal && now < w.ideal[jti])
  {
    RunKeepsSound(c, clock, es);
    var w := Run(c, Initial(c, clock), es);
    AgreeLater(w.service.memory, w.ideal, w.clock, now);
    assert jti in LiveMap(w.service.memory.expiry, now) <==> jti in LiveMap(w.ideal, now);
  }

  /** With "closed" a token is refused exactly when Redis was skipped or failed, has it, or this process's
      revocation has not run out. */
  lemma ClosedRefusesIff(c: Config, clock: int, es: seq<Event>, jti: string, skips: bool, now: int, reply: Reply)
    requires WellTimed(c, Initial(c, clock), es) && Roomy(c, Initial(c, clock), es)
    requires Run(c, Initial(c, clock), es).clock <= now && c.fallback == "closed"
    ensures var w := Run(c, Initial(c, clock), es);
            Answer(c, w.service, jti, skips, now, reply)
            <==> skips || reply == Failed || reply == Replied(true) || (jti in w.ideal && now < w.ideal[jti])
  {
    if skips || reply == Failed {
      UnansweredIff(c, clock, es, jti, skips, now, reply);
    } else {
      AnsweredByRedisIff(c, clock, es, jti, now, reply.hit);
    }
  }

  /** After a failure at `failed` Redis is left alone for exactly the retry interval; a reply ends that at once. */
  lemma CooldownIsExact(c: Config, s: Service, failed: int, now: int, hit: bool)
    requires c.hasRedis
    ensures Skips(c, Marked(c, s, Failed, failed), now) <==> now < failed + c.retryInterval
    ensures !Skips(c, Marked(c, s, Replied(hit), failed), now)
    ensures Marked(c, s, Failed, failed).memory == s.memory == Marked(c, s, Replied(hit), failed).memory
  {
  }

  /** The answer is that of the revocations of all processes together exactly when a token revoked anywhere
      is still revoked by this process itself, or Redis is reached and still holds it. */
  lemma AgreesWithEveryProcessIff(c: Config, clock: int, es: seq<Event>, jti: string, skips: bool, now: int, up: bool)
    requires WellTimed(c, Initial(c, clock), es) && Roomy(c, Initial(c, clock), es)
    requires Run(c, Initial(c, clock), es).clock <= now
    requires c.fallback != "open" && c.fallback != "closed"
    ensures var w := Run(c, Initial(c, clock), es);
            (Answer(c, w.service, jti, skips, now, Truth(w, jti, now, up)) <==> jti in LiveMap(w.peak, now))
            <==> jti !in LiveMap(w.peak, now) || jti in LiveMap(w.ideal, now)
                 || (up && !skips && jti in LiveMap(w.server, now))
  {
    var w := Run(c, Initial(c, clock), es);
    AgreesWithIdealSet(c, clock, es, jti, skips, now, Truth(w, jti, now, up));
    ReportedWasRevoked(c, clock, es, jti, skips, now, up);
  }

  /** A token that only another process revoked: missed while Redis is failing or skipped, found once it
      answers. */
  lemma ElsewhereIsMissedWithoutRedis(c: Config, clock: int, jti: string)
    requires c.fallback != "open" && c.fallback != "closed"
    ensures var es := [Set(jti, 100, clock)];
            var w := Run(c, Initial(c, clock), es);
            && WellTimed(c, Initial(c, clock), es) && Roomy(c, Initial(c, clock), es)
            && jti in LiveMap(w.peak, clock)
            && !Answer(c, w.service, jti, false, clock, Failed)
            && !Answer(c, w.service, jti, true, clock, Truth(w, jti, clock, true))
            && Answer(c, w.service, jti, false, clock, Truth(w, jti, clock, true))
  {
    var es := [Set(jti, 100, clock)];
    assert es[..0] == [];
    assert Run(c, Initial(c, clock), []) == Initial(c, clock);
  }

  lemma AddedIsCoherent(s: Store, maxEntries: int, jti: string, ttl: int, now: int)
    requires Coherent(s)
    ensures Coherent(Added(s, maxEntries, jti, ttl, now))
  {
    if ttl > 0 {
      MadeRoomIsCoherent(s, maxEntries, now);
      PutIsCoherent(if |s.order| >= maxEntries && jti !in s.expiry then MadeRoom(s, maxEntries, now) else s,
                    jti, now + ttl);
    }
  }

  lemma MadeRoomIsCoherent(s: Store, maxEntries: int, now: int)
    requires Coherent(s)
    ensures Coherent(MadeRoom(s, maxEntries, now))
  {
    WithoutIsCoherent(s, Expired(s, now));
    var p := Purged(s, now);
    WithoutIsCoherent(p, Oldest(p, EvictCount(maxEntries)));
  }

  lemma AddedWithin(s: Store, maxEntries: int, jti: string, ttl: int, now: int)
    requires ttl > 0
    ensures var t := Added(s, maxEntries, jti, ttl, now);
            jti in t.expiry && t.expiry[jti] == now + ttl
            && forall j :: j in t.expiry && j != jti ==> j in s.expiry && t.expiry[j] == s.expiry[j]
  {
  }
}
