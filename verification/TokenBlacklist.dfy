/** The degradable token blacklist: a Redis store that may fail at any call, a cooldown after each
    failure, and three fallback modes, beside the in-process dictionary. */
module TokenBlacklist {
  import opened Prelude
  import opened MemoryBlacklist

  /** How a Redis round trip ends. `hit` is only meaningful for a lookup. */
  datatype Reply = Failed | Replied(hit: bool)

  datatype Config = Config(hasRedis: bool, fallback: string, retryInterval: int, maxEntries: int)

  datatype Service = Service(healthy: bool, nextRetry: int, memory: Store)

  /** Redis is not tried while unhealthy and before the retry time. */
  predicate Skips(c: Config, s: Service, now: int) {
    !c.hasRedis || (!s.healthy && now < s.nextRetry)
  }

  function Marked(c: Config, s: Service, reply: Reply, now: int): Service {
    if reply.Failed? then s.(healthy := false, nextRetry := now + c.retryInterval) else s.(healthy := true)
  }

  /** What a revocation leaves behind: `skips` says the cooldown test sent it past Redis, `now` is the clock
      once the round trip, if any, is over. */
  function Revoked(c: Config, s: Service, jti: string, ttl: int, skips: bool, now: int, reply: Reply): Service {
    if ttl <= 0 then s
    else
      var t := if skips then s else Marked(c, s, reply, now);
      t.(memory := Added(t.memory, c.maxEntries, jti, ttl, now))
  }

  function FallbackAnswer(c: Config, memory: Store, jti: string, now: int): bool {
    c.fallback == "closed" || (c.fallback != "open" && jti in LiveMap(memory.expiry, now))
  }

  function Answer(c: Config, s: Service, jti: string, skips: bool, now: int, reply: Reply): bool {
    if skips || reply.Failed? then FallbackAnswer(c, s.memory, jti, now)
    else reply.hit || (c.fallback != "open" && jti in LiveMap(s.memory.expiry, now))
  }

  /** A lookup may clean an expired entry from memory, and records the health of Redis. */
  function Checked(c: Config, s: Service, jti: string, skips: bool, now: int, reply: Reply): Service {
    var t := if skips then s else Marked(c, s, reply, now);
    var consults := if skips || reply.Failed? then c.fallback != "closed" && c.fallback != "open"
                 else !reply.hit && c.fallback != "open";
    if consults then t.(memory := LookedUp(t.memory, jti, now)) else t
  }

  class TokenBlacklist {
    const config: Config
    const memory: MemoryBlacklist
    var healthy: bool
    var nextRetry: int

    ghost predicate Valid()
      reads this, memory
    {
      memory.Valid() && memory.maxEntries == config.maxEntries
    }

    ghost function State(): Service
      reads this, memory
    {
      Service(healthy, nextRetry, memory.State())
    }

    constructor (config: Config)
      ensures Valid() && this.config == config && fresh(memory)
      ensures State() == Service(config.hasRedis, 0, Store([], map[]))
    {
      this.config := config;
      memory := new MemoryBlacklist(config.maxEntries);
      healthy := config.hasRedis;
      nextRetry := 0;
    }

    /** Redis is asked by a call that starts at `start` unless there is none or its last failure is too recent. */
    ghost predicate Asks(start: int)
      reads this
    {
      config.hasRedis && (healthy || start >= nextRetry)
    }

    method Add(jti: string, ttl: int, start: int, now: int, reply: Reply)
      requires Valid()
      modifies this, memory
      ensures Valid() && State() == Revoked(config, old(State()), jti, ttl, Skips(config, old(State()), start), now, reply)
      ensures ttl <= 0 ==> State() == old(State())
      ensures ttl > 0 ==> memory.State() == Added(old(memory.State()), config.maxEntries, jti, ttl, now)
      ensures ttl > 0 && old(Asks(start)) && reply.Failed? ==> !healthy && nextRetry == now + config.retryInterval
      ensures ttl > 0 && old(Asks(start)) && reply.Replied? ==> healthy && nextRetry == old(nextRetry)
      ensures !old(Asks(start)) ==> healthy == old(healthy) && nextRetry == old(nextRetry)
    {
      if ttl <= 0 {
        return;
      }
      if !config.hasRedis {
        memory.Add(jti, ttl, now);
        return;
      }
      if !healthy && start < nextRetry {
        memory.Add(jti, ttl, now);
        return;
      }
      if reply.Failed? {
        MarkUnhealthy(now);
        memory.Add(jti, ttl, now);
      } else {
        MarkHealthy();
        memory.Add(jti, ttl, now);
      }
    }

    method Contains(jti: string, start: int, now: int, reply: Reply) returns (hit: bool)
      requires Valid()
      modifies this, memory
      ensures Valid()
      ensures hit == Answer(config, old(State()), jti, Skips(config, old(State()), start), now, reply)
      ensures State() == Checked(config, old(State()), jti, Skips(config, old(State()), start), now, reply)
      ensures old(Asks(start)) && reply.Failed? ==> !healthy && nextRetry == now + config.retryInterval
      ensures old(Asks(start)) && reply.Replied? ==> healthy && nextRetry == old(nextRetry)
      ensures !old(Asks(start)) ==> healthy == old(healthy) && nextRetry == old(nextRetry)
      ensures memory.State() ==
                if config.fallback == "open" || (old(Asks(start)) && reply == Replied(true))
                   || (config.fallback == "closed" && !(old(Asks(start)) && reply == Replied(false)))
                then old(memory.State()) else LookedUp(old(memory.State()), jti, now)
    {
      if !config.hasRedis {
        hit := FallbackContains(jti, now);
        return;
      }
      if !healthy && start < nextRetry {
        hit := FallbackContains(jti, now);
        return;
      }
      if reply.Failed? {
        MarkUnhealthy(now);
        hit := FallbackContains(jti, now);
      } else {
        MarkHealthy();
        if reply.hit {
          return true;
        }
        if config.fallback == "open" {
          return false;
        }
        hit := memory.Contains(jti, now);
      }
    }

    method FallbackContains(jti: string, now: int) returns (hit: bool)
      requires Valid()
      modifies memory
      ensures Valid() && hit == FallbackAnswer(config, old(memory.State()), jti, now)
      ensures memory.State() == if config.fallback == "closed" || config.fallback == "open" then old(memory.State())
                                else LookedUp(old(memory.State()), jti, now)
    {
      if config.fallback == "closed" {
        return true;
      }
      if config.fallback == "open" {
        return false;
      }
      hit := memory.Contains(jti, now);
    }

    method MarkHealthy()
      modifies this
      ensures healthy && nextRetry == old(nextRetry)
    {
      if !healthy {
        healthy := true;
      }
    }

    method MarkUnhealthy(now: int)
      modifies this
      ensures !healthy && nextRetry == now + config.retryInterval
    {
      healthy := false;
      nextRetry := now + config.retryInterval;
    }
  }
}
