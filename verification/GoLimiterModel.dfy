/** The Go rate limiter's two maps of counters and what its hooks do to them, as functions. */
module GoLimiterModel {
  import opened Wrappers

  datatype Entry = Entry(count: int, lastSeen: int)

  type Counters = map<string, Entry>

  /** Limits of 0 and below mean none. */
  datatype Options = Options(maxConcurrent: int, maxPerContext: int, ttlMs: int)

  datatype State = State(perHash: Counters, perContext: Counters)

  datatype Limit = HashLimit | ContextLimit

  /** An empty context key is none. */
  predicate HasKey(key: Option<string>) {
    key.Some? && key.value != ""
  }

  function Raise(c: Counters, k: string, now: int): Counters {
    c[k := Entry((if k in c then c[k].count else 0) + 1, now)]
  }

  function Lower(c: Counters, k: string): Counters {
    if k !in c then c
    else if c[k].count - 1 <= 0 then c - {k}
    else c[k := c[k].(count := c[k].count - 1)]
  }

  function Init(s: State, hash: string, key: Option<string>, now: int): State {
    State(Raise(s.perHash, hash, now), if HasKey(key) then Raise(s.perContext, key.value, now) else s.perContext)
  }

  function Exceeds(c: Counters, k: string, max: int): bool {
    max > 0 && k in c && c[k].count > max
  }

  function Check(o: Options, s: State, hash: string, key: Option<string>): Option<Limit> {
    if Exceeds(s.perHash, hash, o.maxConcurrent) then Some(HashLimit)
    else if HasKey(key) && Exceeds(s.perContext, key.value, o.maxPerContext) then Some(ContextLimit)
    else None
  }

  predicate Expired(e: Entry, now: int, ttlMs: int) {
    e.count <= 0 && now - e.lastSeen > ttlMs
  }

  function Cleaned(c: Counters, now: int, ttlMs: int): Counters {
    map k | k in c && !Expired(c[k], now, ttlMs) :: c[k]
  }

  function Lowered(s: State, hash: string, key: Option<string>): State {
    State(Lower(s.perHash, hash), if HasKey(key) then Lower(s.perContext, key.value) else s.perContext)
  }

  function End(o: Options, s: State, hash: string, key: Option<string>, now: int): State {
    var t := Lowered(s, hash, key);
    State(Cleaned(t.perHash, now, o.ttlMs), Cleaned(t.perContext, now, o.ttlMs))
  }
}

module GoRateLimiter {
  import opened Wrappers
  import M = GoLimiterModel

  class RateLimiterPlugin {
    const options: M.Options
    var perHash: M.Counters
    var perContext: M.Counters

    function State(): M.State
      reads this
    {
      M.State(perHash, perContext)
    }

    constructor (options: M.Options)
      ensures State() == M.State(map[], map[])
      ensures this.options == if options.ttlMs <= 0 then options.(ttlMs := 300000) else options
    {
      this.options := if options.ttlMs <= 0 then options.(ttlMs := 300000) else options;
      perHash, perContext := map[], map[];
    }

    method Init(hash: string, contextKey: Option<string>, now: int)
      modifies this
      ensures State() == M.Init(old(State()), hash, contextKey, now)
      ensures hash in perHash && perHash[hash].lastSeen == now
      ensures contextKey.Some? && contextKey.value != "" ==>
                contextKey.value in perContext && perContext[contextKey.value].lastSeen == now
    {
      var entry := if hash in perHash then perHash[hash] else M.Entry(0, 0);
      entry := entry.(count := entry.count + 1);
      entry := entry.(lastSeen := now);
      perHash := perHash[hash := entry];
      if contextKey.Some? {
        var key := contextKey.value;
        if key != "" {
          var ctxEntry := if key in perContext then perContext[key] else M.Entry(0, 0);
          ctxEntry := ctxEntry.(count := ctxEntry.count + 1);
          ctxEntry := ctxEntry.(lastSeen := now);
          perContext := perContext[key := ctxEntry];
        }
      }
    }

    method Check(hash: string, contextKey: Option<string>) returns (limited: Option<M.Limit>)
      ensures limited == M.Check(options, State(), hash, contextKey)
    {
      if options.maxConcurrent > 0 {
        if hash in perHash {
          if perHash[hash].count > options.maxConcurrent {
            return Some(M.HashLimit);
          }
        }
      }
      if options.maxPerContext > 0 && contextKey.Some? {
        var key := contextKey.value;
        if key != "" {
          if key in perContext {
            if perContext[key].count > options.maxPerContext {
              return Some(M.ContextLimit);
            }
          }
        }
      }
      return None;
    }

    method End(hash: string, contextKey: Option<string>, now: int)
      modifies this
      ensures State() == M.End(options, old(State()), hash, contextKey, now)
    {
      if hash in perHash {
        var entry := perHash[hash].(count := perHash[hash].count - 1);
        perHash := perHash[hash := entry];
        if entry.count <= 0 {
          perHash := perHash - {hash};
        }
      }
      assert perHash == M.Lower(old(perHash), hash);
      if contextKey.Some? {
        var key := contextKey.value;
        if key != "" {
          if key in perContext {
            var ctxEntry := perContext[key].(count := perContext[key].count - 1);
            perContext := perContext[key := ctxEntry];
            if ctxEntry.count <= 0 {
              perContext := perContext - {key};
            }
          }
          assert perContext == M.Lower(old(perContext), key);
        }
      }
      assert State() == M.Lowered(old(State()), hash, contextKey);
      CleanupExpired(now);
    }

    method CleanupExpired(now: int)
      modifies this
      ensures State() == M.State(M.Cleaned(old(perHash), now, options.ttlMs), M.Cleaned(old(perContext), now, options.ttlMs))
    {
      perContext := RemoveExpired(perContext, now);
      perHash := RemoveExpired(perHash, now);
    }

    /** One of the two loops of the clean-up. */
    method RemoveExpired(counters: M.Counters, now: int) returns (kept: M.Counters)
      ensures kept == M.Cleaned(counters, now, options.ttlMs)
      ensures forall k :: k in kept <==>
                k in counters && !(counters[k].count <= 0 && now - counters[k].lastSeen > options.ttlMs)
    {
      kept := counters;
      var keys := counters.Keys;
      while keys != {}
        invariant keys <= counters.Keys && kept.Keys <= counters.Keys
        invariant forall k | k in counters :: k in kept <==> k in keys || !M.Expired(counters[k], now, options.ttlMs)
        invariant forall k | k in kept :: kept[k] == counters[k]
        decreases keys
      {
        var k :| k in keys;
        var entry := counters[k];
        if entry.count <= 0 && now - entry.lastSeen > options.ttlMs {
          kept := kept - {k};
        }
        keys := keys - {k};
      }
    }
  }
}
