/** The blacklist of a process without Redis: which fallback makes it the process's own dictionary. */
module TokenFallback {
  import opened Prelude
  import opened MemoryBlacklist
  import opened TokenBlacklist
  import opened TokenSchedules

  lemma {:induction false} LongerThanAll(ks: set<string>) returns (n: nat)
    ensures forall k :: k in ks ==> |k| < n
  {
    if ks == {} {
      n := 0;
    } else {
      var k :| k in ks;
      var m := LongerThanAll(ks - {k});
      n := if |k| < m then m else |k| + 1;
    }
  }

  lemma SomeTokenIsMissing(live: map<string, int>) returns (jti: string)
    ensures jti !in live
  {
    var n := LongerThanAll(live.Keys);
    jti := seq(n, i => 'x');
  }

  /** Every token is answered as the given set of live revocations says. */
  ghost predicate AnswersLike(c: Config, s: Service, live: map<string, int>, now: int) {
    forall jti :: Answer(c, s, jti, true, now, Failed) <==> jti in live
  }

  /** Without Redis the reply plays no part. */
  lemma ReplyIsIrrelevant(c: Config, s: Service, jti: string, now: int, reply: Reply)
    ensures Answer(c, s, jti, true, now, reply) == Answer(c, s, jti, true, now, Failed)
  {
  }

  /** Without Redis the blacklist is the process's own dictionary exactly when the fallback is "memory", or it is
      "open" and nothing is revoked: "closed" revokes every token, "open" none. */
  lemma NoRedisIsDictionaryIff(c: Config, clock: int, es: seq<Event>, now: int)
    requires !c.hasRedis
    requires WellTimed(c, Initial(c, clock), es) && Roomy(c, Initial(c, clock), es)
    requires Run(c, Initial(c, clock), es).clock <= now
    ensures var w := Run(c, Initial(c, clock), es);
            AnswersLike(c, w.service, LiveMap(w.ideal, now), now)
            <==> (c.fallback != "open" && c.fallback != "closed") || (c.fallback == "open" && LiveMap(w.ideal, now) == map[])
  {
    RunKeepsSound(c, clock, es);
    var w := Run(c, Initial(c, clock), es);
    AgreeLater(w.service.memory, w.ideal, w.clock, now);
    FallbackIsDictionaryIff(c, w.service, LiveMap(w.ideal, now), now);
  }

  lemma FallbackIsDictionaryIff(c: Config, s: Service, live: map<string, int>, now: int)
    requires LiveMap(s.memory.expiry, now) == live
    ensures AnswersLike(c, s, live, now)
            <==> (c.fallback != "open" && c.fallback != "closed") || (c.fallback == "open" && live == map[])
  {
    if c.fallback == "closed" {
      var jti := SomeTokenIsMissing(live);
      assert Answer(c, s, jti, true, now, Failed);
    } else if c.fallback == "open" && live != map[] {
      var jti :| jti in live;
      assert !Answer(c, s, jti, true, now, Failed);
    }
  }

  /** One token revoked in a process without Redis: with "open" it is not recognised, and with "closed" every
      other token is refused as well. */
  lemma NoRedisOpenAndClosed(c: Config, clock: int, jti: string, other: string)
    requires !c.hasRedis && jti != other
    ensures var es := [Add(jti, 100, true, clock, Failed)];
            var w := Run(c, Initial(c, clock), es);
            && WellTimed(c, Initial(c, clock), es) && Roomy(c, Initial(c, clock), es)
            && LiveMap(w.ideal, clock).Keys == {jti}
            && (c.fallback == "open" ==> !Answer(c, w.service, jti, true, clock, Failed))
            && (c.fallback == "closed" ==> Answer(c, w.service, other, true, clock, Failed))
  {
    var es := [Add(jti, 100, true, clock, Failed)];
    assert es[..0] == [];
    assert Run(c, Initial(c, clock), []) == Initial(c, clock);
    assert LiveMap(map[], clock) == map[];
  }
}
