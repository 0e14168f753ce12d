/** All interleavings of executions that start, are checked and end on one rate limiter. */
module LimiterRuns {
  import opened Wrappers
  import opened Seqs
  import opened LimiterModel

  /** A live execution; `passed` once its check accepted it. */
  datatype Execution = Execution(query: string, key: Option<string>, passed: bool)

  datatype Event =
    | Start(id: nat, query: string, key: Option<string>, now: int)
    | Check(id: nat, now: int)
    | Finish(id: nat, now: int, duration: real, failed: bool)

  /** What happened so far: executions started, ended with an error, the summed durations of the
      ended ones, and the time of the last start or end. */
  datatype Past = Past(calls: nat, errors: nat, spent: real, last: int)

  const NOTHING := Past(0, 0, 0.0, 0)

  /** The limiter, the live executions, and the past: per query since the start, per context since
      its entry was created. */
  datatype System = System(limiter: State, live: map<nat, Execution>,
                           past: map<string, Past>, contextPast: map<(string, string), Past>)

  const INITIAL := System(State(map[], map[]), map[], map[], map[])

  function PastOf(sys: System, q: string): Past {
    if q in sys.past then sys.past[q] else NOTHING
  }

  function ContextPast(sys: System, q: string, k: string): Past {
    if (q, k) in sys.contextPast then sys.contextPast[(q, k)] else NOTHING
  }

  function OneStarted(p: Past, now: int): Past {
    p.(calls := p.calls + 1, last := now)
  }

  function OneEnded(p: Past, now: int, duration: real, failed: bool): Past {
    Past(p.calls, p.errors + (if failed then 1 else 0), p.spent + duration, now)
  }

  function OfQuery(live: map<nat, Execution>, q: string): set<nat> {
    set id | id in live && live[id].query == q
  }

  function OfContext(live: map<nat, Execution>, q: string, k: string): set<nat> {
    set id | id in live && live[id].query == q && live[id].key == Some(k)
  }

  function Passed(live: map<nat, Execution>): set<nat> {
    set id | id in live && live[id].passed
  }

  predicate Enabled(sys: System, e: Event) {
    match e
    case Start(id, _, _, _) => id !in sys.live
    case Check(id, _) => id in sys.live
    case Finish(id, _, _, _) => id in sys.live
  }

  /** One event. Without eviction the limiter's check leaves every entry in place. */
  function Step(o: Options, evict: bool, sys: System, e: Event): System
    requires Enabled(sys, e) && Inv(o, sys)
  {
    match e
    case Start(id, q, key, now) =>
      sys.(limiter := Init(sys.limiter, q, key, now), live := sys.live[id := Execution(q, key, false)],
           past := sys.past[q := OneStarted(PastOf(sys, q), now)],
           contextPast := if key.None? then sys.contextPast
                          else sys.contextPast[(q, key.value) := OneStarted(ContextPast(sys, q, key.value), now)])
    case Check(id, now) =>
      var swept := if evict then Sweep(sys.limiter, now - o.ttl) else sys.limiter;
      var x := sys.live[id];
      var accepted := Decide(o, swept, x.query, x.key) == None;
      sys.(limiter := swept, live := sys.live[id := x.(passed := x.passed || accepted)],
           contextPast := map c | c in sys.contextPast && HasContext(swept, c.0, c.1) :: sys.contextPast[c])
    case Finish(id, now, duration, failed) =>
      var x := sys.live[id];
      LiveIsCounted(o, sys, id);
      sys.(limiter := End(sys.limiter, x.query, x.key, now, duration, failed), live := sys.live - {id},
           past := sys.past[x.query := OneEnded(PastOf(sys, x.query), now, duration, failed)],
           contextPast := if x.key.None? then sys.contextPast
                          else sys.contextPast[(x.query, x.key.value) :=
                                 OneEnded(ContextPast(sys, x.query, x.key.value), now, duration, failed)])
  }

  /** Average times completed calls is the time spent in completed calls. */
  predicate Exact(m: Metrics, spent: real) {
    m.totalCalls >= m.inFlight && m.avgDuration * (m.totalCalls - m.inFlight) as real == spent
  }

  /** The metrics tell the past. */
  predicate Tells(m: Metrics, p: Past) {
    Exact(m, p.spent) && m.totalCalls == p.calls && m.totalErrors == p.errors
  }

  /** A query's counter equals its live executions, its totals and its average are exact, and no
      more of its executions than allowed are past their check. */
  ghost predicate GoodQuery(o: Options, sys: System, q: string) {
    && QueryOf(sys.limiter, q).inFlight == |OfQuery(sys.live, q)|
    && Tells(QueryOf(sys.limiter, q), PastOf(sys, q))
    && (o.maxConcurrent.Some? ==> |OfQuery(sys.live, q) * Passed(sys.live)| <= o.maxConcurrent.value)
  }

  /** The same per query and context key, with the time of the last start or end. */
  ghost predicate GoodContext(o: Options, sys: System, q: string, k: string) {
    && ContextOf(sys.limiter, q, k).inFlight == |OfContext(sys.live, q, k)|
    && Tells(ContextOf(sys.limiter, q, k), ContextPast(sys, q, k))
    && LastIs(sys.limiter, q, k, ContextPast(sys, q, k).last)
    && (o.maxPerContext.Some? ==> |OfContext(sys.live, q, k) * Passed(sys.live)| <= o.maxPerContext.value)
  }

  ghost predicate Inv(o: Options, sys: System) {
    && WellKept(sys.limiter)
    && (forall q :: GoodQuery(o, sys, q))
    && (forall q, k :: GoodContext(o, sys, q, k))
  }

  // --------------------------------------------------------- counting sets

  lemma OfQueryAdd(live: map<nat, Execution>, id: nat, x: Execution, q: string)
    requires id !in live
    ensures |OfQuery(live[id := x], q)| == |OfQuery(live, q)| + if x.query == q then 1 else 0
  {
    assert OfQuery(live[id := x], q) == OfQuery(live, q) + if x.query == q then {id} else {};
  }

  lemma OfContextAdd(live: map<nat, Execution>, id: nat, x: Execution, q: string, k: string)
    requires id !in live
    ensures |OfContext(live[id := x], q, k)| == |OfContext(live, q, k)| + if x.query == q && x.key == Some(k) then 1 else 0
  {
    assert OfContext(live[id := x], q, k) == OfContext(live, q, k) + if x.query == q && x.key == Some(k) then {id} else {};
  }

  lemma OfQueryRemove(live: map<nat, Execution>, id: nat, q: string)
    requires id in live
    ensures |OfQuery(live, q)| == |OfQuery(live - {id}, q)| + if live[id].query == q then 1 else 0
  {
    assert OfQuery(live, q) == OfQuery(live - {id}, q) + if live[id].query == q then {id} else {};
  }

  lemma OfContextRemove(live: map<nat, Execution>, id: nat, q: string, k: string)
    requires id in live
    ensures |OfContext(live, q, k)| ==
            |OfContext(live - {id}, q, k)| + if live[id].query == q && live[id].key == Some(k) then 1 else 0
  {
    assert OfContext(live, q, k) ==
           OfContext(live - {id}, q, k) + if live[id].query == q && live[id].key == Some(k) then {id} else {};
  }

  /** The clamp at zero and a zero divisor never occur when an execution ends. */
  lemma LiveIsCounted(o: Options, sys: System, id: nat)
    requires Inv(o, sys) && id in sys.live
    ensures var x := sys.live[id];
            && x.query in sys.limiter.queries && sys.limiter.queries[x.query].inFlight >= 1
            && Completed(sys.limiter.queries[x.query]) >= 1
            && (x.key.Some? ==>
                  && HasContext(sys.limiter, x.query, x.key.value)
                  && ContextOf(sys.limiter, x.query, x.key.value).inFlight >= 1
                  && Completed(ContextOf(sys.limiter, x.query, x.key.value)) >= 1)
  {
    var x := sys.live[id];
    assert GoodQuery(o, sys, x.query) && id in OfQuery(sys.live, x.query);
    if x.key.Some? {
      assert GoodContext(o, sys, x.query, x.key.value) && id in OfContext(sys.live, x.query, x.key.value);
    }
  }

  // ---------------------------------------------------------- one event each

  /** The running average stays exact: it absorbs one more duration. */
  lemma RollingAverage(m: Metrics, spent: real, duration: real, failed: bool)
    requires Exact(m, spent) && m.inFlight >= 1 && Kept(m)
    ensures Exact(Ended(m, duration, failed), spent + duration)
  {
    var n := (m.totalCalls - m.inFlight) as real;
    var c := Completed(m) as real;
    assert c == n + 1.0;
    var d := duration - m.avgDuration;
    assert (d / c) * c == d;
    assert (m.avgDuration + d / c) * c == m.avgDuration * c + (d / c) * c;
    assert m.avgDuration * c == m.avgDuration * n + m.avgDuration;
  }

  lemma InitLookups(s: State, q: string, key: Option<string>, now: int, q': string, k': string)
    ensures QueryOf(Init(s, q, key, now), q') == if q' == q then Started(QueryOf(s, q)) else QueryOf(s, q')
    ensures ContextOf(Init(s, q, key, now), q', k') ==
            if q' == q && key == Some(k') then Started(ContextOf(s, q, k')) else ContextOf(s, q', k')
  {
  }

  lemma EndLookups(s: State, q: string, key: Option<string>, now: int, duration: real, failed: bool, q': string, k': string)
    requires WellKept(s) && q in s.queries && (key.Some? ==> HasContext(s, q, key.value))
    ensures var s' := End(s, q, key, now, duration, failed);
            && QueryOf(s', q') == (if q' == q then Ended(QueryOf(s, q), duration, failed) else QueryOf(s, q'))
            && ContextOf(s', q', k') == if q' == q && key == Some(k') then Ended(ContextOf(s, q, k'), duration, failed)
                                        else ContextOf(s, q', k')
  {
  }

  /** The time of the last activity, where there is an entry. */
  predicate LastIs(s: State, q: string, k: string, last: int) {
    HasContext(s, q, k) ==> s.contexts[q][k].lastActivity == last
  }

  lemma InitTouches(s: State, q: string, key: Option<string>, now: int, q': string, k': string)
    ensures var s' := Init(s, q, key, now);
            if q' == q && key == Some(k') then LastIs(s', q', k', now)
            else forall last | LastIs(s, q', k', last) :: LastIs(s', q', k', last)
  {
  }

  lemma EndTouches(s: State, q: string, key: Option<string>, now: int, duration: real, failed: bool, q': string, k': string)
    requires WellKept(s) && q in s.queries && (key.Some? ==> HasContext(s, q, key.value))
    ensures var s' := End(s, q, key, now, duration, failed);
            if q' == q && key == Some(k') then LastIs(s', q', k', now)
            else forall last | LastIs(s, q', k', last) :: LastIs(s', q', k', last)
  {
  }

  lemma StartPast(o: Options, evict: bool, sys: System, id: nat, q: string, key: Option<string>, now: int,
                  q': string, k': string)
    requires Inv(o, sys) && id !in sys.live
    ensures ContextPast(Step(o, evict, sys, Start(id, q, key, now)), q', k') ==
            if q' == q && key == Some(k') then OneStarted(ContextPast(sys, q, k'), now) else ContextPast(sys, q', k')
  {
  }

  lemma FinishPast(o: Options, evict: bool, sys: System, id: nat, now: int, duration: real, failed: bool,
                   q: string, k: string)
    requires Inv(o, sys) && id in sys.live
    ensures var x := sys.live[id];
            ContextPast(Step(o, evict, sys, Finish(id, now, duration, failed)), q, k) ==
            if q == x.query && x.key == Some(k) then OneEnded(ContextPast(sys, q, k), now, duration, failed)
            else ContextPast(sys, q, k)
  {
  }

  lemma StartedExact(m: Metrics, spent: real)
    requires Exact(m, spent)
    ensures Exact(Started(m), spent)
  {
    assert Started(m).totalCalls - Started(m).inFlight == m.totalCalls - m.inFlight;
  }

  lemma StartKeepsQuery(o: Options, evict: bool, sys: System, id: nat, q: string, key: Option<string>, now: int, q': string)
    requires Inv(o, sys) && id !in sys.live
    ensures GoodQuery(o, Step(o, evict, sys, Start(id, q, key, now)), q')
  {
    var sys' := Step(o, evict, sys, Start(id, q, key, now));
    assert GoodQuery(o, sys, q');
    InitLookups(sys.limiter, q, key, now, q', "");
    StartedExact(QueryOf(sys.limiter, q'), PastOf(sys, q').spent);
    assert PastOf(sys', q') == if q' == q then OneStarted(PastOf(sys, q), now) else PastOf(sys, q');
    OfQueryAdd(sys.live, id, Execution(q, key, false), q');
    assert OfQuery(sys'.live, q') * Passed(sys'.live) == OfQuery(sys.live, q') * Passed(sys.live);
  }

  lemma StartKeepsContext(o: Options, evict: bool, sys: System, id: nat, q: string, key: Option<string>, now: int,
                          q': string, k': string)
    requires Inv(o, sys) && id !in sys.live
    ensures GoodContext(o, Step(o, evict, sys, Start(id, q, key, now)), q', k')
  {
    var sys' := Step(o, evict, sys, Start(id, q, key, now));
    assert GoodContext(o, sys, q', k');
    InitLookups(sys.limiter, q, key, now, q', k');
    StartedExact(ContextOf(sys.limiter, q', k'), ContextPast(sys, q', k').spent);
    InitTouches(sys.limiter, q, key, now, q', k');
    StartPast(o, evict, sys, id, q, key, now, q', k');
    OfContextAdd(sys.live, id, Execution(q, key, false), q', k');
    assert OfContext(sys'.live, q', k') * Passed(sys'.live) == OfContext(sys.live, q', k') * Passed(sys.live);
  }

  lemma FinishKeepsQuery(o: Options, evict: bool, sys: System, id: nat, now: int, duration: real, failed: bool, q: string)
    requires Inv(o, sys) && id in sys.live
    ensures GoodQuery(o, Step(o, evict, sys, Finish(id, now, duration, failed)), q)
  {
    var sys' := Step(o, evict, sys, Finish(id, now, duration, failed));
    var x := sys.live[id];
    LiveIsCounted(o, sys, id);
    assert GoodQuery(o, sys, q);
    EndLookups(sys.limiter, x.query, x.key, now, duration, failed, q, "");
    OfQueryRemove(sys.live, id, q);
    SubsetSize(OfQuery(sys'.live, q) * Passed(sys'.live), OfQuery(sys.live, q) * Passed(sys.live));
    if q == x.query {
      RollingAverage(QueryOf(sys.limiter, q), PastOf(sys, q).spent, duration, failed);
    }
  }

  lemma FinishKeepsContext(o: Options, evict: bool, sys: System, id: nat, now: int, duration: real, failed: bool,
                           q: string, k: string)
    requires Inv(o, sys) && id in sys.live
    ensures GoodContext(o, Step(o, evict, sys, Finish(id, now, duration, failed)), q, k)
  {
    var sys' := Step(o, evict, sys, Finish(id, now, duration, failed));
    var x := sys.live[id];
    LiveIsCounted(o, sys, id);
    assert GoodContext(o, sys, q, k);
    EndLookups(sys.limiter, x.query, x.key, now, duration, failed, q, k);
    EndTouches(sys.limiter, x.query, x.key, now, duration, failed, q, k);
    FinishPast(o, evict, sys, id, now, duration, failed, q, k);
    OfContextRemove(sys.live, id, q, k);
    SubsetSize(OfContext(sys'.live, q, k) * Passed(sys'.live), OfContext(sys.live, q, k) * Passed(sys.live));
    if q == x.query && x.key == Some(k) {
      RollingAverage(ContextOf(sys.limiter, q, k), ContextPast(sys, q, k).spent, duration, failed);
    }
  }

  /** Eviction only ever drops entries that count nothing. */
  lemma SweepLookups(s: State, cutoff: int, q: string, k: string)
    ensures QueryOf(Sweep(s, cutoff), q) == QueryOf(s, q)
    ensures ContextOf(Sweep(s, cutoff), q, k).inFlight == ContextOf(s, q, k).inFlight
    ensures HasContext(Sweep(s, cutoff), q, k) ==> ContextOf(Sweep(s, cutoff), q, k) == ContextOf(s, q, k)
  {
  }

  /** Accepting an execution: the sets of live and passed executions before and after. */
  lemma PassSets(live: map<nat, Execution>, id: nat, accepted: bool, q: string, k: string)
    requires id in live
    ensures var x := live[id];
            var live' := live[id := x.(passed := x.passed || accepted)];
            && OfQuery(live', q) == OfQuery(live, q) && OfContext(live', q, k) == OfContext(live, q, k)
            && |OfQuery(live', q) * Passed(live')| <=
               (if accepted && x.query == q then |OfQuery(live, q)| else |OfQuery(live, q) * Passed(live)|)
            && |OfContext(live', q, k) * Passed(live')| <=
               (if accepted && x.query == q && x.key == Some(k) then |OfContext(live, q, k)|
                else |OfContext(live, q, k) * Passed(live)|)
  {
    var x := live[id];
    var live' := live[id := x.(passed := x.passed || accepted)];
    assert OfQuery(live', q) == OfQuery(live, q);
    assert OfContext(live', q, k) == OfContext(live, q, k);
    assert Passed(live') <= Passed(live) + {id} && (!accepted ==> Passed(live') == Passed(live));
    PassedOf(OfQuery(live, q), Passed(live), Passed(live'), id, accepted && x.query == q);
    PassedOf(OfContext(live, q, k), Passed(live), Passed(live'), id, accepted && x.query == q && x.key == Some(k));
  }

  /** At most `id` passes besides those that had, and it counts only if it is among `some`. */
  lemma PassedOf(some: set<nat>, before: set<nat>, after: set<nat>, id: nat, counts: bool)
    requires after <= before + {id} && (!counts ==> id !in some || after == before)
    ensures |some * after| <= if counts then |some| else |some * before|
  {
    SubsetSize(some * after, if counts then some else some * before);
  }

  lemma CheckKeepsQuery(o: Options, evict: bool, sys: System, id: nat, now: int, q: string)
    requires Inv(o, sys) && id in sys.live
    ensures GoodQuery(o, Step(o, evict, sys, Check(id, now)), q)
  {
    var sys' := Step(o, evict, sys, Check(id, now));
    var swept, x := sys'.limiter, sys.live[id];
    var accepted := Decide(o, swept, x.query, x.key) == None;
    assert GoodQuery(o, sys, q);
    SweepLookups(sys.limiter, now - o.ttl, q, "");
    PassSets(sys.live, id, accepted, q, "");
    assert QueryOf(swept, q) == QueryOf(sys.limiter, q);
  }

  lemma CheckKeepsContext(o: Options, evict: bool, sys: System, id: nat, now: int, q: string, k: string)
    requires Inv(o, sys) && id in sys.live
    ensures GoodContext(o, Step(o, evict, sys, Check(id, now)), q, k)
  {
    var sys' := Step(o, evict, sys, Check(id, now));
    var swept, x := sys'.limiter, sys.live[id];
    var accepted := Decide(o, swept, x.query, x.key) == None;
    assert GoodContext(o, sys, q, k);
    SweepLookups(sys.limiter, now - o.ttl, q, k);
    PassSets(sys.live, id, accepted, q, k);
    CheckKeepsPast(o, evict, sys, id, now, q, k);
  }

  lemma CheckKeepsPast(o: Options, evict: bool, sys: System, id: nat, now: int, q: string, k: string)
    requires Inv(o, sys) && id in sys.live
    ensures var sys' := Step(o, evict, sys, Check(id, now));
            && Tells(ContextOf(sys'.limiter, q, k), ContextPast(sys', q, k))
            && LastIs(sys'.limiter, q, k, ContextPast(sys', q, k).last)
  {
    var sys' := Step(o, evict, sys, Check(id, now));
    assert GoodContext(o, sys, q, k);
    SweepLookups(sys.limiter, now - o.ttl, q, k);
    if HasContext(sys'.limiter, q, k) {
      assert ContextPast(sys', q, k) == ContextPast(sys, q, k);
    } else {
      assert ContextPast(sys', q, k) == NOTHING;
    }
  }

  // -------------------------------------------------------------- whole runs

  lemma StepKeepsInv(o: Options, evict: bool, sys: System, e: Event)
    requires Inv(o, sys) && Enabled(sys, e)
    ensures Inv(o, Step(o, evict, sys, e))
  {
    match e
    case Start(id, q, key, now) =>
      InitKept(sys.limiter, q, key, now);
      forall q' { StartKeepsQuery(o, evict, sys, id, q, key, now, q'); }
      forall q', k' { StartKeepsContext(o, evict, sys, id, q, key, now, q', k'); }
    case Check(id, now) =>
      forall q { CheckKeepsQuery(o, evict, sys, id, now, q); }
      forall q, k { CheckKeepsContext(o, evict, sys, id, now, q, k); }
    case Finish(id, now, duration, failed) =>
      EndKept(sys.limiter, sys.live[id].query, sys.live[id].key, now, duration, failed);
      forall q { FinishKeepsQuery(o, evict, sys, id, now, duration, failed, q); }
      forall q, k { FinishKeepsContext(o, evict, sys, id, now, duration, failed, q, k); }
  }

  lemma InitialInv(o: Options)
    ensures Inv(o, INITIAL)
  {
    forall q
      ensures GoodQuery(o, INITIAL, q)
    {
      assert OfQuery(map[], q) == {};
    }
    forall q, k
      ensures GoodContext(o, INITIAL, q, k)
    {
      assert OfContext(map[], q, k) == {};
    }
  }

  /** The system after a sequence of events, if each was possible when it came. */
  ghost function Run(o: Options, evict: bool, events: seq<Event>): (r: Option<System>)
    ensures r.Some? ==> Inv(o, r.value)
  {
    if events == [] then
      InitialInv(o);
      Some(INITIAL)
    else
      var e := events[|events| - 1];
      match Run(o, evict, events[..|events| - 1])
      case None => None
      case Some(sys) =>
        if !Enabled(sys, e) then None
        else
          StepKeepsInv(o, evict, sys, e);
          Some(Step(o, evict, sys, e))
  }

  /** The verdicts of the checks of a run, in order. */
  ghost function Verdicts(o: Options, evict: bool, events: seq<Event>): seq<Option<Rejection>>
    requires Run(o, evict, events).Some?
  {
    if events == [] then []
    else
      var front, e := events[..|events| - 1], events[|events| - 1];
      var sys := Run(o, evict, front).value;
      Verdicts(o, evict, front)
      + if !e.Check? then []
        else
          var x := sys.live[e.id];
          [Decide(o, if evict then Sweep(sys.limiter, e.now - o.ttl) else sys.limiter, x.query, x.key)]
  }

  /** In every reachable state, whatever the interleaving: counters count live executions, limits
      hold, totals count starts and errors, and averages are exact. */
  lemma SafeInEveryRun(o: Options, evict: bool, events: seq<Event>, q: string, k: string)
    requires Run(o, evict, events).Some?
    ensures var sys := Run(o, evict, events).value;
            && QueryOf(sys.limiter, q).inFlight == |OfQuery(sys.live, q)|
            && ContextOf(sys.limiter, q, k).inFlight == |OfContext(sys.live, q, k)|
            && (o.maxConcurrent.Some? ==> |OfQuery(sys.live, q) * Passed(sys.live)| <= o.maxConcurrent.value)
            && (o.maxPerContext.Some? ==> |OfContext(sys.live, q, k) * Passed(sys.live)| <= o.maxPerContext.value)
            && Tells(QueryOf(sys.limiter, q), PastOf(sys, q))
            && Tells(ContextOf(sys.limiter, q, k), ContextPast(sys, q, k))
  {
    var sys := Run(o, evict, events).value;
    assert GoodQuery(o, sys, q) && GoodContext(o, sys, q, k);
  }

  predicate Within(limit: Option<nat>, ids: set<nat>) {
    limit.Some? ==> |ids| <= limit.value
  }

  /** A check passes exactly when the live executions of its query and of its key, the caller's own
      included, are no more than allowed; otherwise it names the limit, the query's first. */
  lemma CheckMeans(o: Options, evict: bool, events: seq<Event>, id: nat, now: int)
    requires Run(o, evict, events).Some? && id in Run(o, evict, events).value.live
    ensures var sys := Run(o, evict, events).value; var x := sys.live[id];
            var rejected := Decide(o, Sweep(sys.limiter, now - o.ttl), x.query, x.key);
            var query := Within(o.maxConcurrent, OfQuery(sys.live, x.query));
            var context := x.key.Some? ==> Within(o.maxPerContext, OfContext(sys.live, x.query, x.key.value));
            && (rejected == None <==> query && context)
            && (rejected == Some(QueryLimit) <==> !query)
            && (rejected == Some(ContextLimit) <==> query && !context)
  {
    var sys := Run(o, evict, events).value;
    var x := sys.live[id];
    LiveIsCounted(o, sys, id);
    assert GoodQuery(o, sys, x.query);
    SweepLookups(sys.limiter, now - o.ttl, x.query, "");
    if x.key.Some? {
      assert GoodContext(o, sys, x.query, x.key.value);
      SweepLookups(sys.limiter, now - o.ttl, x.query, x.key.value);
    }
  }

  /** A check drops the entry of a context exactly when it has no live execution and none started or
      ended within the time to live. */
  lemma SweepMeans(o: Options, evict: bool, events: seq<Event>, now: int, q: string, k: string)
    requires Run(o, evict, events).Some? && HasContext(Run(o, evict, events).value.limiter, q, k)
    ensures var sys := Run(o, evict, events).value;
            HasContext(Sweep(sys.limiter, now - o.ttl), q, k) <==>
            OfContext(sys.live, q, k) != {} || ContextPast(sys, q, k).last >= now - o.ttl
  {
    var sys := Run(o, evict, events).value;
    assert GoodContext(o, sys, q, k);
    assert |OfContext(sys.live, q, k)| == 0 <==> OfContext(sys.live, q, k) == {};
  }

  lemma SameDecision(o: Options, a: System, b: System, now: int, id: nat)
    requires Inv(o, a) && Inv(o, b) && a.live == b.live && id in a.live
    ensures var x := a.live[id];
            Decide(o, Sweep(a.limiter, now - o.ttl), x.query, x.key) == Decide(o, b.limiter, x.query, x.key)
  {
    var x := a.live[id];
    LiveIsCounted(o, a, id);
    LiveIsCounted(o, b, id);
    assert GoodQuery(o, a, x.query) && GoodQuery(o, b, x.query);
    SweepLookups(a.limiter, now - o.ttl, x.query, "");
    if x.key.Some? {
      assert GoodContext(o, a, x.query, x.key.value) && GoodContext(o, b, x.query, x.key.value);
      SweepLookups(a.limiter, now - o.ttl, x.query, x.key.value);
    }
  }

  /** Eviction changes no verdict: the same events are possible, with the same live and
      passed executions, as on a limiter that never forgets an idle key. */
  lemma {:induction false} EvictionIsInvisible(o: Options, events: seq<Event>)
    ensures Run(o, true, events).Some? <==> Run(o, false, events).Some?
    ensures Run(o, true, events).Some? ==>
              && Run(o, true, events).value.live == Run(o, false, events).value.live
              && Verdicts(o, true, events) == Verdicts(o, false, events)
  {
    if events != [] {
      var front, e := events[..|events| - 1], events[|events| - 1];
      EvictionIsInvisible(o, front);
      if Run(o, true, front).Some? && Enabled(Run(o, true, front).value, e) {
        EvictionStep(o, Run(o, true, front).value, Run(o, false, front).value, e);
      }
    }
  }

  lemma EvictionStep(o: Options, a: System, b: System, e: Event)
    requires Inv(o, a) && Inv(o, b) && a.live == b.live && Enabled(a, e)
    ensures Enabled(b, e) && Step(o, true, a, e).live == Step(o, false, b, e).live
    ensures e.Check? ==>
              Decide(o, Sweep(a.limiter, e.now - o.ttl), a.live[e.id].query, a.live[e.id].key) ==
              Decide(o, b.limiter, b.live[e.id].query, b.live[e.id].key)
  {
    if e.Check? {
      SameDecision(o, a, b, e.now, e.id);
    }
  }
}
