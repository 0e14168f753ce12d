/** All interleavings of executions that start, are checked and end on one Go rate limiter. */
module GoLimiterRuns {
  import opened Wrappers
  import opened Seqs
  import opened GoLimiterModel

  /** A live execution; `passed` once its check let it through. */
  datatype Execution = Execution(hash: string, key: Option<string>, passed: bool)

  type Live = map<nat, Execution>

  datatype Event =
    | Started(id: nat, hash: string, key: Option<string>, now: int)
    | Checked(id: nat)
    | Ended(id: nat, now: int)

  datatype System = System(limiter: State, live: Live)

  const INITIAL := System(State(map[], map[]), map[])

  function OfHash(live: Live, hash: string): set<nat> {
    set id | id in live && live[id].hash == hash
  }

  /** The executions of a context key, of whatever query. */
  function OfKey(live: Live, key: string): set<nat> {
    set id | id in live && HasKey(live[id].key) && live[id].key.value == key
  }

  function Passed(live: Live): set<nat> {
    set id | id in live && live[id].passed
  }

  predicate Enabled(sys: System, e: Event) {
    match e
    case Started(id, _, _, _) => id !in sys.live
    case Checked(id) => id in sys.live
    case Ended(id, _) => id in sys.live
  }

  function Step(o: Options, sys: System, e: Event): System
    requires Enabled(sys, e)
  {
    match e
    case Started(id, hash, key, now) =>
      System(Init(sys.limiter, hash, key, now), sys.live[id := Execution(hash, key, false)])
    case Checked(id) =>
      var x := sys.live[id];
      sys.(live := sys.live[id := x.(passed := x.passed || Check(o, sys.limiter, x.hash, x.key) == None)])
    case Ended(id, now) =>
      var x := sys.live[id];
      System(End(o, sys.limiter, x.hash, x.key, now), sys.live - {id})
  }

  /** A counter exists exactly when there is something to count, and counts it. */
  ghost predicate Counts(c: Counters, k: string, ids: set<nat>) {
    && (k in c <==> ids != {})
    && (k in c ==> c[k].count == |ids|)
  }

  ghost predicate Within(max: int, ids: set<nat>) {
    max > 0 ==> |ids| <= max
  }

  ghost predicate GoodHash(o: Options, sys: System, hash: string) {
    && Counts(sys.limiter.perHash, hash, OfHash(sys.live, hash))
    && Within(o.maxConcurrent, OfHash(sys.live, hash) * Passed(sys.live))
  }

  ghost predicate GoodKey(o: Options, sys: System, key: string) {
    && Counts(sys.limiter.perContext, key, OfKey(sys.live, key))
    && Within(o.maxPerContext, OfKey(sys.live, key) * Passed(sys.live))
  }

  ghost predicate Inv(o: Options, sys: System) {
    (forall hash :: GoodHash(o, sys, hash)) && (forall key :: GoodKey(o, sys, key))
  }

  // ------------------------------------------------------------- the counters

  lemma RaiseCounts(c: Counters, k: string, now: int, x: string, ids: set<nat>, id: nat)
    requires Counts(c, x, ids) && id !in ids
    ensures Counts(Raise(c, k, now), x, if x == k then ids + {id} else ids)
  {
  }

  lemma LowerCounts(c: Counters, k: string, x: string, ids: set<nat>, id: nat)
    requires Counts(c, x, ids) && (x == k ==> id in ids)
    ensures Counts(Lower(c, k), x, if x == k then ids - {id} else ids)
  {
    if x == k {
      assert ids - {id} == {} <==> |ids - {id}| == 0;
    }
  }

  /** Nothing that counts live executions ever expires. */
  lemma CleanCounts(c: Counters, now: int, ttlMs: int, x: string, ids: set<nat>)
    requires Counts(c, x, ids)
    ensures Counts(Cleaned(c, now, ttlMs), x, ids)
  {
    if x in c {
      assert |ids| > 0;
    }
  }

  // ------------------------------------------------------------ one event each

  lemma StartKeepsHash(o: Options, sys: System, id: nat, hash: string, key: Option<string>, now: int, x: string)
    requires Inv(o, sys) && id !in sys.live
    ensures GoodHash(o, Step(o, sys, Started(id, hash, key, now)), x)
  {
    var live' := sys.live[id := Execution(hash, key, false)];
    assert GoodHash(o, sys, x);
    RaiseCounts(sys.limiter.perHash, hash, now, x, OfHash(sys.live, x), id);
    assert OfHash(live', x) == if x == hash then OfHash(sys.live, x) + {id} else OfHash(sys.live, x);
    assert OfHash(live', x) * Passed(live') == OfHash(sys.live, x) * Passed(sys.live);
  }

  lemma StartKeepsKey(o: Options, sys: System, id: nat, hash: string, key: Option<string>, now: int, x: string)
    requires Inv(o, sys) && id !in sys.live
    ensures GoodKey(o, Step(o, sys, Started(id, hash, key, now)), x)
  {
    var live' := sys.live[id := Execution(hash, key, false)];
    assert GoodKey(o, sys, x);
    if HasKey(key) {
      RaiseCounts(sys.limiter.perContext, key.value, now, x, OfKey(sys.live, x), id);
    }
    StartSets(sys.live, id, hash, key, x);
  }

  /** A new execution joins those of its key, but not those that passed. */
  lemma StartSets(live: Live, id: nat, hash: string, key: Option<string>, x: string)
    requires id !in live
    ensures var live' := live[id := Execution(hash, key, false)];
            && OfKey(live', x) == (if HasKey(key) && x == key.value then OfKey(live, x) + {id} else OfKey(live, x))
            && OfKey(live', x) * Passed(live') == OfKey(live, x) * Passed(live)
  {
    var live' := live[id := Execution(hash, key, false)];
    assert OfKey(live', x) == if HasKey(key) && x == key.value then OfKey(live, x) + {id} else OfKey(live, x);
    assert Passed(live') == Passed(live) && id !in Passed(live);
  }

  lemma EndKeepsHash(o: Options, sys: System, id: nat, now: int, x: string)
    requires Inv(o, sys) && id in sys.live
    ensures GoodHash(o, Step(o, sys, Ended(id, now)), x)
  {
    var e, live' := sys.live[id], sys.live - {id};
    assert GoodHash(o, sys, x);
    LowerCounts(sys.limiter.perHash, e.hash, x, OfHash(sys.live, x), id);
    assert OfHash(live', x) == if x == e.hash then OfHash(sys.live, x) - {id} else OfHash(sys.live, x);
    CleanCounts(Lower(sys.limiter.perHash, e.hash), now, o.ttlMs, x, OfHash(live', x));
    SubsetSize(OfHash(live', x) * Passed(live'), OfHash(sys.live, x) * Passed(sys.live));
  }

  lemma EndKeepsKey(o: Options, sys: System, id: nat, now: int, x: string)
    requires Inv(o, sys) && id in sys.live
    ensures GoodKey(o, Step(o, sys, Ended(id, now)), x)
  {
    var e, live' := sys.live[id], sys.live - {id};
    var lowered := Lowered(sys.limiter, e.hash, e.key).perContext;
    assert GoodKey(o, sys, x);
    if HasKey(e.key) {
      LowerCounts(sys.limiter.perContext, e.key.value, x, OfKey(sys.live, x), id);
    }
    assert OfKey(live', x) == if HasKey(e.key) && x == e.key.value then OfKey(sys.live, x) - {id} else OfKey(sys.live, x);
    CleanCounts(lowered, now, o.ttlMs, x, OfKey(live', x));
    SubsetSize(OfKey(live', x) * Passed(live'), OfKey(sys.live, x) * Passed(sys.live));
  }

  lemma CheckKeepsHash(o: Options, sys: System, id: nat, x: string)
    requires Inv(o, sys) && id in sys.live
    ensures GoodHash(o, Step(o, sys, Checked(id)), x)
  {
    var e, live' := sys.live[id], Step(o, sys, Checked(id)).live;
    assert GoodHash(o, sys, x);
    assert OfHash(live', x) == OfHash(sys.live, x);
    if live'[id].passed && !e.passed && x == e.hash {
      SubsetSize(OfHash(live', x) * Passed(live'), OfHash(sys.live, x));
      assert id in OfHash(sys.live, x);
    } else {
      assert OfHash(live', x) * Passed(live') == OfHash(sys.live, x) * Passed(sys.live);
    }
  }

  lemma CheckKeepsKey(o: Options, sys: System, id: nat, x: string)
    requires Inv(o, sys) && id in sys.live
    ensures GoodKey(o, Step(o, sys, Checked(id)), x)
  {
    var e, live' := sys.live[id], Step(o, sys, Checked(id)).live;
    assert GoodKey(o, sys, x);
    assert OfKey(live', x) == OfKey(sys.live, x);
    if live'[id].passed && !e.passed && HasKey(e.key) && x == e.key.value {
      SubsetSize(OfKey(live', x) * Passed(live'), OfKey(sys.live, x));
      assert id in OfKey(sys.live, x);
    } else {
      assert OfKey(live', x) * Passed(live') == OfKey(sys.live, x) * Passed(sys.live);
    }
  }

  // -------------------------------------------------------------- whole runs

  lemma StepKeepsInv(o: Options, sys: System, e: Event)
    requires Inv(o, sys) && Enabled(sys, e)
    ensures Inv(o, Step(o, sys, e))
  {
    match e
    case Started(id, hash, key, now) =>
      forall x { StartKeepsHash(o, sys, id, hash, key, now, x); }
      forall x { StartKeepsKey(o, sys, id, hash, key, now, x); }
    case Checked(id) =>
      forall x { CheckKeepsHash(o, sys, id, x); }
      forall x { CheckKeepsKey(o, sys, id, x); }
    case Ended(id, now) =>
      forall x { EndKeepsHash(o, sys, id, now, x); }
      forall x { EndKeepsKey(o, sys, id, now, x); }
  }

  /** The system after a sequence of events, if each was possible when it came. */
  ghost function Run(o: Options, events: seq<Event>): Option<System> {
    if events == [] then Some(INITIAL)
    else
      var e := events[|events| - 1];
      match Run(o, events[..|events| - 1])
      case None => None
      case Some(sys) => if Enabled(sys, e) then Some(Step(o, sys, e)) else None
  }

  lemma {:induction false} RunKeepsInv(o: Options, events: seq<Event>)
    requires Run(o, events).Some?
    ensures Inv(o, Run(o, events).value)
  {
    if events == [] {
      forall x
        ensures GoodHash(o, INITIAL, x) && GoodKey(o, INITIAL, x)
      {
        assert OfHash(map[], x) == {} && OfKey(map[], x) == {};
      }
    } else {
      RunKeepsInv(o, events[..|events| - 1]);
      StepKeepsInv(o, Run(o, events[..|events| - 1]).value, events[|events| - 1]);
    }
  }

  /** In every reachable state the maps hold a key exactly when it has live executions, with their
      number, and the executions past their check stay within both limits. */
  lemma CountersAreLive(o: Options, events: seq<Event>, hash: string, key: string)
    requires Run(o, events).Some?
    ensures var sys := Run(o, events).value;
            && Counts(sys.limiter.perHash, hash, OfHash(sys.live, hash))
            && Counts(sys.limiter.perContext, key, OfKey(sys.live, key))
            && (o.maxConcurrent > 0 ==> |OfHash(sys.live, hash) * Passed(sys.live)| <= o.maxConcurrent)
            && (o.maxPerContext > 0 ==> |OfKey(sys.live, key) * Passed(sys.live)| <= o.maxPerContext)
  {
    RunKeepsInv(o, events);
    assert GoodHash(o, Run(o, events).value, hash) && GoodKey(o, Run(o, events).value, key);
  }

  /** A check passes exactly when the live executions of its query and of its key, the caller's
      own included, are no more than allowed; otherwise it names the limit, the query's first. */
  lemma CheckMeans(o: Options, events: seq<Event>, id: nat)
    requires Run(o, events).Some? && id in Run(o, events).value.live
    ensures var sys := Run(o, events).value; var x := sys.live[id];
            var limited := Check(o, sys.limiter, x.hash, x.key);
            var hash := o.maxConcurrent > 0 ==> |OfHash(sys.live, x.hash)| <= o.maxConcurrent;
            var key := x.key.Some? && x.key.value != "" && o.maxPerContext > 0 ==>
                         |OfKey(sys.live, x.key.value)| <= o.maxPerContext;
            && (limited == None <==> hash && key)
            && (limited == Some(HashLimit) <==> !hash)
            && (limited == Some(ContextLimit) <==> hash && !key)
  {
    var sys := Run(o, events).value;
    var x := sys.live[id];
    CountersAreLive(o, events, x.hash, if HasKey(x.key) then x.key.value else "");
    assert id in OfHash(sys.live, x.hash);
    if HasKey(x.key) {
      assert id in OfKey(sys.live, x.key.value);
    }
  }

  /** The clean-up at the end of an execution never removes anything, whatever the clock says. */
  lemma CleanupRemovesNothing(o: Options, events: seq<Event>, id: nat, now: int)
    requires Run(o, events).Some? && id in Run(o, events).value.live
    ensures var s := Run(o, events).value.limiter; var x := Run(o, events).value.live[id];
            End(o, s, x.hash, x.key, now) == Lowered(s, x.hash, x.key)
  {
    var sys := Run(o, events).value;
    var x := sys.live[id];
    var t := Lowered(sys.limiter, x.hash, x.key);
    forall k | k in t.perHash
      ensures !Expired(t.perHash[k], now, o.ttlMs)
    {
      CountersAreLive(o, events, k, "");
    }
    forall k | k in t.perContext
      ensures !Expired(t.perContext[k], now, o.ttlMs)
    {
      CountersAreLive(o, events, "", k);
    }
    assert Cleaned(t.perHash, now, o.ttlMs) == t.perHash;
    assert Cleaned(t.perContext, now, o.ttlMs) == t.perContext;
  }

  /** When every execution has ended both maps are empty again. */
  lemma NothingIsLeaked(o: Options, events: seq<Event>)
    requires Run(o, events).Some? && Run(o, events).value.live == map[]
    ensures Run(o, events).value.limiter == State(map[], map[])
  {
    var sys := Run(o, events).value;
    forall k
      ensures k !in sys.limiter.perHash && k !in sys.limiter.perContext
    {
      CountersAreLive(o, events, k, k);
      assert OfHash(sys.live, k) == {} && OfKey(sys.live, k) == {};
    }
    assert sys.limiter.perHash == map[] && sys.limiter.perContext == map[];
  }
}
