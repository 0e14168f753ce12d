/** The rate limiter's metrics and what its three hooks do to them, as functions. */
module LimiterModel {
  import opened Wrappers

  /** Counters kept per query and, once more, per query and context key. */
  datatype Metrics = Metrics(inFlight: nat, totalCalls: nat, totalErrors: nat, avgDuration: real)

  datatype ContextMetrics = ContextMetrics(metrics: Metrics, lastActivity: int)

  datatype Options = Options(maxConcurrent: Option<nat>, maxPerContext: Option<nat>, ttl: int)

  type QueryMap = map<string, Metrics>
  type ContextMap = map<string, map<string, ContextMetrics>>

  datatype State = State(queries: QueryMap, contexts: ContextMap)

  datatype Rejection = QueryLimit | ContextLimit

  const FRESH := Metrics(0, 0, 0, 0.0)

  function QueryOf(s: State, q: string): Metrics {
    if q in s.queries then s.queries[q] else FRESH
  }

  function HasContext(s: State, q: string, k: string): bool {
    q in s.contexts && k in s.contexts[q]
  }

  function ContextOf(s: State, q: string, k: string): Metrics {
    if HasContext(s, q, k) then s.contexts[q][k].metrics else FRESH
  }

  function Started(m: Metrics): Metrics {
    m.(inFlight := m.inFlight + 1, totalCalls := m.totalCalls + 1)
  }

  /** Decrement, clamped at zero. */
  function Decrement(n: nat): nat {
    if n == 0 then 0 else n - 1
  }

  function Completed(m: Metrics): int {
    m.totalCalls - Decrement(m.inFlight)
  }

  /** An entry is created by a call and counts at most its calls as running. */
  predicate Kept(m: Metrics) {
    m.totalCalls >= 1 && m.inFlight <= m.totalCalls
  }

  function Ended(m: Metrics, duration: real, failed: bool): Metrics
    requires Kept(m)
  {
    Metrics(Decrement(m.inFlight), m.totalCalls, m.totalErrors + (if failed then 1 else 0),
            m.avgDuration + (duration - m.avgDuration) / Completed(m) as real)
  }

  ghost predicate WellKept(s: State) {
    && (forall q | q in s.queries :: Kept(s.queries[q]))
    && (forall q, k | HasContext(s, q, k) :: Kept(s.contexts[q][k].metrics))
  }

  function PutContext(contexts: ContextMap, q: string, k: string, m: ContextMetrics): ContextMap {
    contexts[q := (if q in contexts then contexts[q] else map[])[k := m]]
  }

  lemma PutAgain(contexts: ContextMap, q: string, k: string, a: ContextMetrics, b: ContextMetrics)
    ensures PutContext(PutContext(contexts, q, k, a), q, k, b) == PutContext(contexts, q, k, b)
  {
    var inner := if q in contexts then contexts[q] else map[];
    assert inner[k := a][k := b] == inner[k := b];
  }

  lemma PutSame(contexts: ContextMap, q: string, k: string)
    requires q in contexts && k in contexts[q]
    ensures PutContext(contexts, q, k, contexts[q][k]) == contexts
  {
    assert contexts[q][k := contexts[q][k]] == contexts[q];
  }

  /** `init`: always fires at the start. */
  function Init(s: State, q: string, key: Option<string>, now: int): State {
    State(s.queries[q := Started(QueryOf(s, q))],
          if key.None? then s.contexts
          else PutContext(s.contexts, q, key.value, ContextMetrics(Started(ContextOf(s, q, key.value)), now)))
  }

  /** Idle context entries older than the cutoff. */
  predicate Expired(m: ContextMetrics, cutoff: int) {
    m.metrics.inFlight == 0 && m.lastActivity < cutoff
  }

  function SweepInner(inner: map<string, ContextMetrics>, cutoff: int): map<string, ContextMetrics> {
    map k | k in inner && !Expired(inner[k], cutoff) :: inner[k]
  }

  function Sweep(s: State, cutoff: int): State {
    s.(contexts := map q | q in s.contexts :: SweepInner(s.contexts[q], cutoff))
  }

  /** The gate of `check`, on the metrics as they stand. */
  function Decide(o: Options, s: State, q: string, key: Option<string>): Option<Rejection> {
    if o.maxConcurrent.Some? && q in s.queries && s.queries[q].inFlight > o.maxConcurrent.value then Some(QueryLimit)
    else if o.maxPerContext.Some? && key.Some? && HasContext(s, q, key.value)
            && s.contexts[q][key.value].metrics.inFlight > o.maxPerContext.value then Some(ContextLimit)
    else None
  }

  /** `end`: always fires at the end. */
  function End(s: State, q: string, key: Option<string>, now: int, duration: real, failed: bool): State
    requires WellKept(s)
  {
    if q !in s.queries then s
    else
      State(s.queries[q := Ended(s.queries[q], duration, failed)],
            if key.None? || !HasContext(s, q, key.value) then s.contexts
            else PutContext(s.contexts, q, key.value,
                            ContextMetrics(Ended(ContextOf(s, q, key.value), duration, failed), now)))
  }

  lemma InitKept(s: State, q: string, key: Option<string>, now: int)
    requires WellKept(s)
    ensures WellKept(Init(s, q, key, now))
  {
  }

  lemma EndKept(s: State, q: string, key: Option<string>, now: int, duration: real, failed: bool)
    requires WellKept(s)
    ensures WellKept(End(s, q, key, now, duration, failed))
  {
  }
}

/** The limiter plugin: two maps of counters updated by its hooks. */
module TimeToLiveLimiter {
  import opened Wrappers
  import M = LimiterModel

  class TimeToLiveRateLimiter {
    const options: M.Options
    var queryMetrics: M.QueryMap
    var contextMetrics: M.ContextMap

    function State(): M.State
      reads this
    {
      M.State(queryMetrics, contextMetrics)
    }

    ghost predicate Valid()
      reads this
    {
      M.WellKept(State())
    }

    constructor (options: M.Options)
      ensures Valid() && this.options == options && State() == M.State(map[], map[])
    {
      this.options := options;
      queryMetrics, contextMetrics := map[], map[];
    }

    method Init(query: string, contextKey: Option<string>, now: int)
      requires Valid()
      modifies this
      ensures Valid() && State() == M.Init(old(State()), query, contextKey, now)
    {
      M.InitKept(State(), query, contextKey, now);
      var qm := GetOrCreateQueryMetrics(query);
      qm := qm.(inFlight := qm.inFlight + 1);
      qm := qm.(totalCalls := qm.totalCalls + 1);
      queryMetrics := queryMetrics[query := qm];
      assert queryMetrics == old(queryMetrics)[query := M.Started(M.QueryOf(old(State()), query))];
      if contextKey.Some? {
        CountContext(query, contextKey.value, now);
      }
    }

    method CountContext(query: string, key: string, now: int)
      modifies this`contextMetrics
      ensures contextMetrics == M.PutContext(old(contextMetrics), query, key,
                                             M.ContextMetrics(M.Started(M.ContextOf(old(State()), query, key)), now))
    {
      var cm := GetOrCreateContextMetrics(query, key, now);
      var counted := M.ContextMetrics(cm.metrics.(inFlight := cm.metrics.inFlight + 1,
                                                  totalCalls := cm.metrics.totalCalls + 1), now);
      M.PutAgain(old(contextMetrics), query, key, cm, counted);
      contextMetrics := contextMetrics[query := contextMetrics[query][key := counted]];
    }

    method GetOrCreateQueryMetrics(query: string) returns (m: M.Metrics)
      modifies this`queryMetrics
      ensures m == M.QueryOf(old(State()), query) && queryMetrics == old(queryMetrics)[query := m]
    {
      if query !in queryMetrics {
        queryMetrics := queryMetrics[query := M.Metrics(0, 0, 0, 0.0)];
      }
      m := queryMetrics[query];
    }

    method GetOrCreateContextMetrics(query: string, key: string, now: int) returns (m: M.ContextMetrics)
      modifies this`contextMetrics
      ensures m.metrics == M.ContextOf(old(State()), query, key)
      ensures contextMetrics == M.PutContext(old(contextMetrics), query, key, m)
    {
      if query in contextMetrics && key in contextMetrics[query] {
        M.PutSame(contextMetrics, query, key);
      }
      if query !in contextMetrics {
        contextMetrics := contextMetrics[query := map[]];
      }
      if key !in contextMetrics[query] {
        contextMetrics :=
          contextMetrics[query := contextMetrics[query][key := M.ContextMetrics(M.Metrics(0, 0, 0, 0.0), now)]];
      }
      m := contextMetrics[query][key];
    }

    method Check(query: string, contextKey: Option<string>, now: int) returns (rejected: Option<M.Rejection>)
      requires Valid()
      modifies this`contextMetrics
      ensures Valid() && State() == M.Sweep(old(State()), now - options.ttl)
      ensures rejected == M.Decide(options, State(), query, contextKey)
    {
      Sweep(now);
      if options.maxConcurrent.Some? && query in queryMetrics
         && queryMetrics[query].inFlight > options.maxConcurrent.value {
        return Some(M.QueryLimit);
      }
      if options.maxPerContext.Some? && contextKey.Some?
         && query in contextMetrics && contextKey.value in contextMetrics[query] {
        var cm := contextMetrics[query][contextKey.value];
        if cm.metrics.inFlight > options.maxPerContext.value {
          return Some(M.ContextLimit);
        }
      }
      rejected := None;
    }

    method Sweep(now: int)
      modifies this`contextMetrics
      ensures State() == M.Sweep(old(State()), now - options.ttl)
    {
      var cutoff := now - options.ttl;
      ghost var before := contextMetrics;
      var queries := contextMetrics.Keys;
      while queries != {}
        invariant queries <= before.Keys && contextMetrics.Keys == before.Keys
        invariant forall q | q in before ::
                    contextMetrics[q] == if q in queries then before[q] else M.SweepInner(before[q], cutoff)
        decreases queries
      {
        var q :| q in queries;
        var inner := SweepEntries(contextMetrics[q], cutoff);
        contextMetrics := contextMetrics[q := inner];
        queries := queries - {q};
      }
      assert contextMetrics == M.Sweep(M.State(queryMetrics, before), cutoff).contexts;
    }

    /** The inner loop of `sweep`: deletes expired entries one by one. */
    method SweepEntries(entries: map<string, M.ContextMetrics>, cutoff: int) returns (inner: map<string, M.ContextMetrics>)
      ensures inner == M.SweepInner(entries, cutoff)
    {
      inner := entries;
      var keys := entries.Keys;
      while keys != {}
        invariant keys <= entries.Keys && inner.Keys <= entries.Keys
        invariant forall k | k in entries :: k in inner <==> k in keys || !M.Expired(entries[k], cutoff)
        invariant forall k | k in inner :: inner[k] == entries[k]
        decreases keys
      {
        var k :| k in keys;
        var m := entries[k];
        if m.metrics.inFlight == 0 && m.lastActivity < cutoff {
          inner := inner - {k};
        }
        keys := keys - {k};
      }
    }

    method End(query: string, contextKey: Option<string>, now: int, duration: real, failed: bool)
      requires Valid()
      modifies this
      ensures Valid() && State() == M.End(old(State()), query, contextKey, now, duration, failed)
    {
      M.EndKept(State(), query, contextKey, now, duration, failed);
      if query !in queryMetrics {
        return;
      }
      var qm := Finish(queryMetrics[query], duration, failed);
      queryMetrics := queryMetrics[query := qm];
      if contextKey.Some? && query in contextMetrics && contextKey.value in contextMetrics[query] {
        var cm := Finish(contextMetrics[query][contextKey.value].metrics, duration, failed);
        contextMetrics := contextMetrics[query := contextMetrics[query][contextKey.value := M.ContextMetrics(cm, now)]];
      }
    }

    method Finish(m: M.Metrics, duration: real, failed: bool) returns (r: M.Metrics)
      requires M.Kept(m)
      ensures r == M.Ended(m, duration, failed)
    {
      r := m.(inFlight := if m.inFlight - 1 > 0 then m.inFlight - 1 else 0);
      var completed := r.totalCalls - r.inFlight;
      r := r.(avgDuration := r.avgDuration + (duration - r.avgDuration) / completed as real);
      if failed {
        r := r.(totalErrors := r.totalErrors + 1);
      }
    }
  }
}
