/** InMemoryRateLimiter: the object that runs the limiter over either backend. */
module RateLimiterService {
  import opened RateLimit
  import opened SqliteStore
  import opened Window

  class RateLimiter {
    const cfg: Config
    const store: StateStore?
    var hits: map<string, seq<real>>
    var cooldownUntil: map<string, real>

    constructor (cfg: Config, store: StateStore?)
      ensures this.cfg == cfg && this.store == store
      ensures MemView() == EMPTY
    {
      this.cfg, this.store := cfg, store;
      hits, cooldownUntil := map[], map[];
    }

    ghost function MemView(): Limiter
      reads this
    {
      Limiter(hits, cooldownUntil)
    }

    ghost function SqlView(): Tables
      requires store != null
      reads store
    {
      Tables(store.rows, store.cooldowns)
    }

    /** The store, when there is one. */
    ghost function Stores(): set<StateStore> {
      if store == null then {} else {store}
    }

    /** One call: its verdict and the new state of the backend in use are those of the
        backend's transition; the other backend's fields do not move. */
    method Allow(c: Call) returns (verdict: Verdict)
      modifies this`hits, this`cooldownUntil, Stores()`rows, Stores()`cooldowns
      ensures store == null ==>
                (MemView(), verdict) == MemAllow(cfg, old(MemView()), c)
      ensures store != null ==>
                (SqlView(), verdict) == SqlAllow(cfg, old(SqlView()), c) && MemView() == old(MemView())
    {
      var currentHits: nat;
      if store != null {
        var cooldown := store.GetCooldown(c.key);
        if c.now < cooldown {
          return CooldownActive;
        }
        store.PruneHits(c.key, c.now - cfg.window);
        currentHits := store.CountHits(c.key, c.now - cfg.window);
      } else {
        if c.now < DeadlineOf(cooldownUntil, c.key) {
          return CooldownActive;
        }
        var bucket := HitsOf(hits, c.key);
        while bucket != [] && c.now - bucket[0] > cfg.window
          invariant DropOld(bucket, c.now, cfg.window) == DropOld(HitsOf(old(hits), c.key), c.now, cfg.window)
          invariant hits == old(hits) && cooldownUntil == old(cooldownUntil)
        {
          bucket := bucket[1..];
        }
        hits := hits[c.key := bucket];
        currentHits := |bucket|;
      }

      var effectiveMax := cfg.maxRequests;
      if c.severity >= 80 {
        effectiveMax := Max(1, cfg.maxRequests / 10);
      } else if c.severity >= 50 {
        effectiveMax := Max(1, cfg.maxRequests / 5);
      } else if c.severity >= 30 {
        effectiveMax := Max(1, cfg.maxRequests / 2);
      }
      if c.multiplier > 1.0 {
        effectiveMax := Max(1, Truncate(effectiveMax as real / c.multiplier));
      }
      assert effectiveMax == AfterMultiplier(AfterSeverity(cfg.maxRequests, c.severity), c.multiplier);

      if c.attempts >= 3 {
        if store != null {
          store.SetCooldown(c.key, c.now + COOLDOWN_SECONDS);
        } else {
          cooldownUntil := cooldownUntil[c.key := c.now + COOLDOWN_SECONDS];
        }
        return AggressiveAttacker;
      } else if c.attempts >= 2 {
        effectiveMax := Max(1, effectiveMax / 2);
      }

      if currentHits >= effectiveMax {
        return RateExceeded;
      }
      if store != null {
        store.AddHit(c.key, c.now);
      } else {
        hits := hits[c.key := HitsOf(hits, c.key) + [c.now]];
        assert hits == old(hits)[c.key := DropOld(HitsOf(old(hits), c.key), c.now, cfg.window) + [c.now]];
      }
      verdict := Allowed;
    }
  }
}
