/** The query pipeline as a machine of interleaved executions: what happens between two awaits is
    one event. Plugins, hooks and the database answer as they like; their answers are part of the
    events. */
module QueryPipeline {
  import opened Wrappers

  /** Registered hooks and check plugins, and the limit on concurrent attempts. */
  datatype Config = Config(hooks: nat, checks: nat, maxConcurrent: Option<nat>)

  /** What an execution does to the outside. */
  datatype Step =
    | Init
    | Hook(index: nat, ok: bool)
    | Check(index: nat, ok: bool)
    | Refused(attempt: nat)
    | Before(attempt: nat)
    | Query(attempt: nat)
    | Settled(attempt: nat, ok: bool)
    | Policy(attempt: nat, again: bool)
    | End

  datatype Phase =
    | Authorizing(next: nat)
    | Checking(next: nat)
    | Ready(attempt: nat)
    | Running(attempt: nat)
    | Deciding(attempt: nat)
    | Closing
    | Done

  /** Queries with authorization tags are `tagged`. Without a retry policy there is one attempt; the
      policy is asked after a failed attempt that is not the last. */
  datatype Execution = Execution(tagged: bool, maxAttempts: nat, phase: Phase, trace: seq<Step>)

  datatype System = System(inFlight: int, executions: map<nat, Execution>)

  datatype Event =
    | Start(id: nat, tagged: bool, maxAttempts: nat)
    | HookAnswers(id: nat, ok: bool)
    | CheckAnswers(id: nat, ok: bool)
    | Attempt(id: nat)
    | Settle(id: nat, ok: bool)
    | Decide(id: nat, retry: bool)
    | Close(id: nat)

  const INITIAL := System(0, map[])

  function AfterHooks(c: Config): Phase {
    if c.checks == 0 then Ready(1) else Checking(0)
  }

  /** A tagged query needs a hook; without one it is refused at once. */
  function Opening(c: Config, tagged: bool): Phase {
    if !tagged then AfterHooks(c)
    else if c.hooks == 0 then Closing
    else Authorizing(0)
  }

  predicate Full(c: Config, inFlight: int) {
    c.maxConcurrent.Some? && inFlight >= c.maxConcurrent.value
  }

  predicate Enabled(sys: System, e: Event) {
    if e.Start? then e.id !in sys.executions && e.maxAttempts >= 1
    else
      && e.id in sys.executions
      && var phase := sys.executions[e.id].phase;
         match e
         case Start(_, _, _) => false
         case HookAnswers(_, _) => phase.Authorizing?
         case CheckAnswers(_, _) => phase.Checking?
         case Attempt(_) => phase.Ready?
         case Settle(_, _) => phase.Running?
         case Decide(_, _) => phase.Deciding?
         case Close(_) => phase.Closing?
  }

  function Move(x: Execution, phase: Phase, steps: seq<Step>): Execution {
    x.(phase := phase, trace := x.trace + steps)
  }

  /** The execution's own part of an event. */
  function Advance(c: Config, full: bool, x: Execution, e: Event): Execution
    requires !e.Start?
    requires e.HookAnswers? ==> x.phase.Authorizing?
    requires e.CheckAnswers? ==> x.phase.Checking?
    requires e.Attempt? ==> x.phase.Ready?
    requires e.Settle? ==> x.phase.Running?
    requires e.Decide? ==> x.phase.Deciding?
  {
    match e
    case HookAnswers(_, ok) =>
      var n := x.phase.next;
      Move(x, if !ok then Closing else if n + 1 == c.hooks then AfterHooks(c) else Authorizing(n + 1), [Hook(n, ok)])
    case CheckAnswers(_, ok) =>
      var n := x.phase.next;
      Move(x, if !ok then Closing else if n + 1 == c.checks then Ready(1) else Checking(n + 1), [Check(n, ok)])
    case Attempt(_) =>
      var n := x.phase.attempt;
      if full then Move(x, Deciding(n), [Refused(n)]) else Move(x, Running(n), [Before(n), Query(n)])
    case Settle(_, ok) =>
      var n := x.phase.attempt;
      Move(x, if ok then Closing else Deciding(n), [Settled(n, ok)])
    case Decide(_, retry) =>
      var n := x.phase.attempt;
      if n >= x.maxAttempts then Move(x, Closing, [])
      else Move(x, if retry then Ready(n + 1) else Closing, [Policy(n, retry)])
    case Close(_) => Move(x, Done, [End])
  }

  /** One event: an attempt takes a slot, and gives it back however it settles. */
  function Next(c: Config, sys: System, e: Event): System
    requires Enabled(sys, e)
  {
    if e.Start? then
      sys.(executions := sys.executions[e.id := Execution(e.tagged, e.maxAttempts, Opening(c, e.tagged), [Init])])
    else
      var full := Full(c, sys.inFlight);
      System(sys.inFlight + (if e.Attempt? && !full then 1 else if e.Settle? then -1 else 0),
             sys.executions[e.id := Advance(c, full, sys.executions[e.id], e)])
  }

  // ----------------------------------------------------------- what is promised

  /** Init comes first and only there, End comes last and only there. */
  ghost predicate Framed(trace: seq<Step>, done: bool) {
    && trace != []
    && (forall i | 0 <= i < |trace| :: trace[i].Init? <==> i == 0)
    && (forall i | 0 <= i < |trace| :: trace[i].End? <==> done && i == |trace| - 1)
  }

  /** Hooks accepted a tagged query, and every check passed. */
  ghost predicate Cleared(c: Config, tagged: bool, trace: seq<Step>) {
    && (tagged ==> c.hooks > 0 && forall k: nat | k < c.hooks :: Hook(k, true) in trace)
    && (forall k: nat | k < c.checks :: Check(k, true) in trace)
  }

  /** The database is asked only after clearance, each time right after a Before of its own. */
  ghost predicate Gated(c: Config, tagged: bool, trace: seq<Step>) {
    forall i | 0 <= i < |trace| && trace[i].Query? ::
      Cleared(c, tagged, trace[..i]) && i > 0 && trace[i - 1] == Before(trace[i].attempt)
  }

  /** Attempts run one after another: each query is settled before anything else happens. */
  ghost predicate Settles(trace: seq<Step>, running: bool) {
    forall i | 0 <= i < |trace| && trace[i].Query? :: SettledNext(trace, i, running)
  }

  predicate SettledNext(trace: seq<Step>, i: nat, running: bool)
    requires i < |trace| && trace[i].Query?
  {
    if i + 1 == |trace| then running else trace[i + 1].Settled? && trace[i + 1].attempt == trace[i].attempt
  }

  predicate IsDenial(s: Step) {
    (s.Hook? || s.Check?) && !s.ok
  }

  ghost predicate Asked(trace: seq<Step>) {
    exists i :: 0 <= i < |trace| && trace[i].Query?
  }

  ghost predicate Denied(trace: seq<Step>) {
    exists i :: 0 <= i < |trace| && IsDenial(trace[i])
  }

  /** Attempts are counted up from one, within the limit. */
  ghost predicate Counted(trace: seq<Step>, upTo: nat) {
    && (forall i | 0 <= i < |trace| && trace[i].Query? :: 1 <= trace[i].attempt <= upTo)
    && (forall i, j | 0 <= i < j < |trace| && trace[i].Query? && trace[j].Query? :: trace[i].attempt < trace[j].attempt)
  }

  /** Where an execution stands, and what its trace must show for that. */
  ghost predicate Placed(c: Config, x: Execution) {
    match x.phase
    case Authorizing(n) =>
      x.tagged && n < c.hooks && !Asked(x.trace) && !Denied(x.trace) && forall k: nat | k < n :: Hook(k, true) in x.trace
    case Checking(n) =>
      && n < c.checks && !Asked(x.trace) && !Denied(x.trace)
      && (x.tagged ==> c.hooks > 0 && forall k: nat | k < c.hooks :: Hook(k, true) in x.trace)
      && (forall k: nat | k < n :: Check(k, true) in x.trace)
    case Ready(n) =>
      Cleared(c, x.tagged, x.trace) && !Denied(x.trace) && 1 <= n <= x.maxAttempts && Counted(x.trace, n - 1)
    case Running(n) =>
      && Cleared(c, x.tagged, x.trace) && !Denied(x.trace) && 1 <= n <= x.maxAttempts && Counted(x.trace, n)
      && x.trace != [] && x.trace[|x.trace| - 1] == Query(n)
    case Deciding(n) =>
      Cleared(c, x.tagged, x.trace) && !Denied(x.trace) && 1 <= n <= x.maxAttempts && Counted(x.trace, n)
    case Closing => Counted(x.trace, x.maxAttempts) && !(Asked(x.trace) && Denied(x.trace))
    case Done => Counted(x.trace, x.maxAttempts) && !(Asked(x.trace) && Denied(x.trace))
  }

  ghost predicate Good(c: Config, x: Execution) {
    && x.maxAttempts >= 1
    && Framed(x.trace, x.phase.Done?)
    && Gated(c, x.tagged, x.trace)
    && Settles(x.trace, x.phase.Running?)
    && Placed(c, x)
  }

  /** The executions with an attempt in progress. */
  function Holding(executions: map<nat, Execution>): set<nat> {
    set id | id in executions && executions[id].phase.Running?
  }

  ghost predicate Inv(c: Config, sys: System) {
    && (forall id | id in sys.executions :: Good(c, sys.executions[id]))
    && sys.inFlight == |Holding(sys.executions)|
    && (c.maxConcurrent.Some? ==> sys.inFlight <= c.maxConcurrent.value)
  }

  // --------------------------------------------------- appending to a trace

  lemma FramedAppend(trace: seq<Step>, s: Step)
    requires Framed(trace, false) && !s.Init?
    ensures Framed(trace + [s], s.End?)
  {
  }

  lemma GatedAppend(c: Config, tagged: bool, trace: seq<Step>, s: Step)
    requires Gated(c, tagged, trace)
    requires s.Query? ==> Cleared(c, tagged, trace) && trace != [] && trace[|trace| - 1] == Before(s.attempt)
    ensures Gated(c, tagged, trace + [s])
  {
    var t := trace + [s];
    forall i | 0 <= i < |t| && t[i].Query?
      ensures Cleared(c, tagged, t[..i]) && i > 0 && t[i - 1] == Before(t[i].attempt)
    {
      assert t[..i] == trace[..i];
      assert i == |trace| ==> trace[..i] == trace;
    }
  }

  /** What may follow the last step: after a query, only that it settles. */
  predicate Follows(trace: seq<Step>, s: Step) {
    trace != [] && trace[|trace| - 1].Query? ==> s.Settled? && s.attempt == trace[|trace| - 1].attempt
  }

  lemma SettlesAppend(trace: seq<Step>, running: bool, s: Step)
    requires Settles(trace, running) && Follows(trace, s)
    ensures Settles(trace + [s], s.Query?)
  {
  }

  lemma AskedAppend(trace: seq<Step>, s: Step)
    ensures Asked(trace + [s]) <==> Asked(trace) || s.Query?
  {
    var t := trace + [s];
    assert t[|trace|] == s;
    if Asked(trace) {
      var i :| 0 <= i < |trace| && trace[i].Query?;
      assert t[i].Query?;
    }
    if Asked(t) && !s.Query? {
      var i :| 0 <= i < |t| && t[i].Query?;
      assert trace[i].Query?;
    }
  }

  lemma DeniedAppend(trace: seq<Step>, s: Step)
    ensures Denied(trace + [s]) <==> Denied(trace) || IsDenial(s)
  {
    var t := trace + [s];
    assert t[|trace|] == s;
    if Denied(trace) {
      var i :| 0 <= i < |trace| && IsDenial(trace[i]);
      assert IsDenial(t[i]);
    }
    if Denied(t) && !IsDenial(s) {
      var i :| 0 <= i < |t| && IsDenial(t[i]);
      assert IsDenial(trace[i]);
    }
  }

  lemma CountedAppend(trace: seq<Step>, n: nat, s: Step, m: nat)
    requires Counted(trace, n) && n <= m && (s.Query? ==> n < s.attempt <= m)
    ensures Counted(trace + [s], m)
  {
  }

  lemma NotAskedCounted(trace: seq<Step>, n: nat)
    requires !Asked(trace)
    ensures Counted(trace, n)
  {
  }

  lemma ClearedAppend(c: Config, tagged: bool, trace: seq<Step>, s: Step)
    requires Cleared(c, tagged, trace)
    ensures Cleared(c, tagged, trace + [s])
  {
  }

  /** Everything but the place, after one more step. */
  lemma StepKeeps(c: Config, x: Execution, s: Step)
    requires Framed(x.trace, false) && Gated(c, x.tagged, x.trace) && Settles(x.trace, x.phase.Running?)
    requires !s.Init? && Follows(x.trace, s)
    requires s.Query? ==> Cleared(c, x.tagged, x.trace) && x.trace[|x.trace| - 1] == Before(s.attempt)
    ensures Framed(x.trace + [s], s.End?) && Gated(c, x.tagged, x.trace + [s]) && Settles(x.trace + [s], s.Query?)
  {
    FramedAppend(x.trace, s);
    GatedAppend(c, x.tagged, x.trace, s);
    SettlesAppend(x.trace, x.phase.Running?, s);
  }

  /** Only a running execution has a query as its last step. */
  lemma LastStep(c: Config, x: Execution, s: Step)
    requires Good(c, x) && !x.phase.Running?
    ensures Follows(x.trace, s)
  {
  }

  // ------------------------------------------------------------ one event each

  lemma StartIsGood(c: Config, tagged: bool, maxAttempts: nat)
    requires maxAttempts >= 1
    ensures Good(c, Execution(tagged, maxAttempts, Opening(c, tagged), [Init]))
  {
  }

  lemma HookKeepsGood(c: Config, x: Execution, e: Event)
    requires Good(c, x) && e.HookAnswers? && x.phase.Authorizing? && x.maxAttempts >= 1
    ensures Good(c, Advance(c, false, x, e))
  {
    var s := Hook(x.phase.next, e.ok);
    LastStep(c, x, s);
    StepKeeps(c, x, s);
    AskedAppend(x.trace, s);
    DeniedAppend(x.trace, s);
    NotAskedCounted(x.trace + [s], 0);
    NotAskedCounted(x.trace + [s], x.maxAttempts);
  }

  lemma CheckKeepsGood(c: Config, x: Execution, e: Event)
    requires Good(c, x) && e.CheckAnswers? && x.phase.Checking? && x.maxAttempts >= 1
    ensures Good(c, Advance(c, false, x, e))
  {
    var s := Check(x.phase.next, e.ok);
    LastStep(c, x, s);
    StepKeeps(c, x, s);
    AskedAppend(x.trace, s);
    DeniedAppend(x.trace, s);
    NotAskedCounted(x.trace + [s], 0);
    NotAskedCounted(x.trace + [s], x.maxAttempts);
  }

  lemma AttemptKeepsGood(c: Config, full: bool, x: Execution, e: Event)
    requires Good(c, x) && e.Attempt? && x.phase.Ready?
    ensures Good(c, Advance(c, full, x, e))
  {
    if full {
      RefusalKeepsGood(c, x);
    } else {
      QueryKeepsGood(c, x);
    }
  }

  lemma RefusalKeepsGood(c: Config, x: Execution)
    requires Good(c, x) && x.phase.Ready?
    ensures Good(c, Move(x, Deciding(x.phase.attempt), [Refused(x.phase.attempt)]))
  {
    var n := x.phase.attempt;
    var s := Refused(n);
    LastStep(c, x, s);
    StepKeeps(c, x, s);
    DeniedAppend(x.trace, s);
    CountedAppend(x.trace, n - 1, s, n);
    ClearedAppend(c, x.tagged, x.trace, s);
  }

  lemma QueryKeepsGood(c: Config, x: Execution)
    requires Good(c, x) && x.phase.Ready?
    ensures Good(c, Move(x, Running(x.phase.attempt), [Before(x.phase.attempt), Query(x.phase.attempt)]))
  {
    var n := x.phase.attempt;
    var y := x.(trace := x.trace + [Before(n)]);
    BeforeKeeps(c, x, y);
    StepKeeps(c, y, Query(n));
    DeniedAppend(y.trace, Query(n));
    CountedAppend(y.trace, n - 1, Query(n), n);
    ClearedAppend(c, x.tagged, y.trace, Query(n));
    assert x.trace + [Before(n), Query(n)] == y.trace + [Query(n)];
  }

  lemma BeforeKeeps(c: Config, x: Execution, y: Execution)
    requires Good(c, x) && x.phase.Ready? && y == x.(trace := x.trace + [Before(x.phase.attempt)])
    ensures Framed(y.trace, false) && Gated(c, y.tagged, y.trace) && Settles(y.trace, false)
    ensures !Denied(y.trace) && Counted(y.trace, x.phase.attempt - 1) && Cleared(c, y.tagged, y.trace)
  {
    var s := Before(x.phase.attempt);
    LastStep(c, x, s);
    StepKeeps(c, x, s);
    DeniedAppend(x.trace, s);
    CountedAppend(x.trace, x.phase.attempt - 1, s, x.phase.attempt - 1);
    ClearedAppend(c, x.tagged, x.trace, s);
  }

  lemma SettleKeepsGood(c: Config, x: Execution, e: Event)
    requires Good(c, x) && e.Settle? && x.phase.Running?
    ensures Good(c, Advance(c, false, x, e))
  {
    var n := x.phase.attempt;
    var s := Settled(n, e.ok);
    StepKeeps(c, x, s);
    DeniedAppend(x.trace, s);
    CountedAppend(x.trace, n, s, n);
    CountedAppend(x.trace, n, s, x.maxAttempts);
    ClearedAppend(c, x.tagged, x.trace, s);
  }

  lemma DecideKeepsGood(c: Config, x: Execution, e: Event)
    requires Good(c, x) && e.Decide? && x.phase.Deciding?
    ensures Good(c, Advance(c, false, x, e))
  {
    var n := x.phase.attempt;
    if n >= x.maxAttempts {
      assert x.trace + [] == x.trace;
    } else {
      var s := Policy(n, e.retry);
      LastStep(c, x, s);
      StepKeeps(c, x, s);
      DeniedAppend(x.trace, s);
      CountedAppend(x.trace, n, s, n);
      CountedAppend(x.trace, n, s, x.maxAttempts);
      ClearedAppend(c, x.tagged, x.trace, s);
    }
  }

  lemma CloseKeepsGood(c: Config, x: Execution, e: Event)
    requires Good(c, x) && e.Close? && x.phase.Closing?
    ensures Good(c, Advance(c, false, x, e))
  {
    LastStep(c, x, End);
    StepKeeps(c, x, End);
    AskedAppend(x.trace, End);
    DeniedAppend(x.trace, End);
    CountedAppend(x.trace, x.maxAttempts, End, x.maxAttempts);
  }

  lemma AdvanceKeepsGood(c: Config, full: bool, x: Execution, e: Event)
    requires Good(c, x) && x.maxAttempts >= 1 && !e.Start? && Enabled(System(0, map[e.id := x]), e)
    ensures Good(c, Advance(c, full, x, e))
  {
    match e
    case HookAnswers(_, _) => HookKeepsGood(c, x, e);
    case CheckAnswers(_, _) => CheckKeepsGood(c, x, e);
    case Attempt(_) => AttemptKeepsGood(c, full, x, e);
    case Settle(_, _) => SettleKeepsGood(c, x, e);
    case Decide(_, _) => DecideKeepsGood(c, x, e);
    case Close(_) => CloseKeepsGood(c, x, e);
  }

  /** One execution moves: the slots held change by its own. */
  lemma HoldingMoves(executions: map<nat, Execution>, id: nat, x: Execution)
    ensures var was := id in executions && executions[id].phase.Running?;
            |Holding(executions[id := x])| ==
            |Holding(executions)| + (if x.phase.Running? then 1 else 0) - (if was then 1 else 0)
  {
    var rest := Holding(executions) - {id};
    HoldingSplit(executions, id);
    HoldingSplit(executions[id := x], id);
    assert Holding(executions[id := x]) - {id} == rest;
  }

  lemma HoldingSplit(executions: map<nat, Execution>, id: nat)
    ensures |Holding(executions)| ==
            |Holding(executions) - {id}| + (if id in executions && executions[id].phase.Running? then 1 else 0)
  {
    var all := Holding(executions);
    if id in all {
      assert all == (all - {id}) + {id};
    } else {
      assert all - {id} == all;
    }
  }

  lemma NextKeepsInv(c: Config, sys: System, e: Event)
    requires Inv(c, sys) && Enabled(sys, e)
    ensures Inv(c, Next(c, sys, e))
  {
    MovedIsGood(c, sys, e);
    HoldingMoves(sys.executions, e.id, Next(c, sys, e).executions[e.id]);
  }

  lemma MovedIsGood(c: Config, sys: System, e: Event)
    requires Inv(c, sys) && Enabled(sys, e)
    ensures Good(c, Next(c, sys, e).executions[e.id])
  {
    if e.Start? {
      StartIsGood(c, e.tagged, e.maxAttempts);
    } else {
      AdvanceKeepsGood(c, Full(c, sys.inFlight), sys.executions[e.id], e);
    }
  }

  // --------------------------------------------------------------- whole runs

  /** The system after a sequence of events, if each was possible when it came. */
  ghost function Run(c: Config, events: seq<Event>): Option<System> {
    if events == [] then Some(INITIAL)
    else
      var e := events[|events| - 1];
      match Run(c, events[..|events| - 1])
      case None => None
      case Some(sys) => if Enabled(sys, e) then Some(Next(c, sys, e)) else None
  }

  lemma {:induction false} RunKeepsInv(c: Config, events: seq<Event>)
    requires Run(c, events).Some?
    ensures Inv(c, Run(c, events).value)
  {
    if events == [] {
      assert Holding(map[]) == {};
    } else {
      RunKeepsInv(c, events[..|events| - 1]);
      NextKeepsInv(c, Run(c, events[..|events| - 1]).value, events[|events| - 1]);
    }
  }

  /** In every run each execution fires init first and, once it is done, end exactly once and last;
      asks the database only after every hook (if tagged) and every check accepted, each time with
      a before of its own; never asks it once it was denied; and has its attempts one by one, in
      order, within its limit. */
  lemma ProtocolInEveryRun(c: Config, events: seq<Event>, id: nat)
    requires Run(c, events).Some? && id in Run(c, events).value.executions
    ensures var x := Run(c, events).value.executions[id];
            && Framed(x.trace, x.phase.Done?)
            && Gated(c, x.tagged, x.trace)
            && Settles(x.trace, x.phase.Running?)
            && Counted(x.trace, x.maxAttempts)
            && !(Asked(x.trace) && Denied(x.trace))
  {
    RunKeepsInv(c, events);
    var x := Run(c, events).value.executions[id];
    assert Good(c, x);
    if !Asked(x.trace) {
      NotAskedCounted(x.trace, x.maxAttempts);
    }
  }

  /** In every run the slot counter is the number of attempts in progress, never more than
      allowed, and zero when none is. */
  lemma SlotsInEveryRun(c: Config, events: seq<Event>)
    requires Run(c, events).Some?
    ensures var sys := Run(c, events).value;
            && sys.inFlight == |Holding(sys.executions)|
            && (c.maxConcurrent.Some? ==> sys.inFlight <= c.maxConcurrent.value)
            && ((forall id | id in sys.executions :: !sys.executions[id].phase.Running?) ==> sys.inFlight == 0)
  {
    RunKeepsInv(c, events);
    var sys := Run(c, events).value;
    if forall id | id in sys.executions :: !sys.executions[id].phase.Running? {
      assert Holding(sys.executions) == {};
    }
  }

  /** An attempt is refused exactly when as many others as allowed are in progress. */
  lemma RefusedWhenFull(c: Config, events: seq<Event>, id: nat)
    requires Run(c, events + [Attempt(id)]).Some? && Run(c, events).Some?
    requires id in Run(c, events).value.executions && id in Run(c, events + [Attempt(id)]).value.executions
    ensures var sys, after := Run(c, events).value, Run(c, events + [Attempt(id)]).value;
            !after.executions[id].phase.Running? <==>
            c.maxConcurrent.Some? && |Holding(sys.executions) - {id}| == c.maxConcurrent.value
  {
    RunKeepsInv(c, events);
    assert (events + [Attempt(id)])[..|events|] == events;
    var sys := Run(c, events).value;
    assert Holding(sys.executions) - {id} == Holding(sys.executions);
  }
}
