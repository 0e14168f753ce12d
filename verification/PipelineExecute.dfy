/** The pipeline's `execute`, phase by phase, shown to be a run of the machine in `QueryPipeline`. */
module PipelineExecute {
  import opened Wrappers
  import opened QueryPipeline

  /** How hooks, checks, the database and the retry policy answer one execution. */
  datatype Answers = Answers(hook: nat -> bool, check: nat -> bool, query: nat -> bool, retry: nat -> bool)

  ghost function RunFrom(c: Config, sys: System, events: seq<Event>): Option<System> {
    if events == [] then Some(sys)
    else
      var e := events[|events| - 1];
      match RunFrom(c, sys, events[..|events| - 1])
      case None => None
      case Some(s) => if Enabled(s, e) then Some(Next(c, s, e)) else None
  }

  lemma RunAppend(c: Config, sys: System, events: seq<Event>, e: Event)
    requires RunFrom(c, sys, events).Some? && Enabled(RunFrom(c, sys, events).value, e)
    ensures RunFrom(c, sys, events + [e]) == Some(Next(c, RunFrom(c, sys, events).value, e))
  {
    assert (events + [e])[..|events|] == events;
  }

  /** A pipeline on which only the execution `x` runs. */
  function Alone(inFlight: int, id: nat, x: Execution): System {
    System(inFlight, map[id := x])
  }

  lemma AloneNext(c: Config, inFlight: int, id: nat, x: Execution, e: Event)
    requires !e.Start? && Enabled(Alone(inFlight, id, x), e)
    ensures e.id == id
    ensures Next(c, Alone(inFlight, id, x), e) ==
            Alone(inFlight + (if e.Attempt? && !Full(c, inFlight) then 1 else if e.Settle? then -1 else 0), id,
                  Advance(c, Full(c, inFlight), x, e))
  {
  }

  /** The last thing that happened is a query that succeeded. */
  predicate Succeeded(trace: seq<Step>) {
    trace != [] && trace[|trace| - 1].Settled? && trace[|trace| - 1].ok
  }

  class SqlQueryPipeline {
    const config: Config
    var inFlight: int

    constructor (config: Config)
      ensures this.config == config && inFlight == 0
    {
      this.config := config;
      inFlight := 0;
    }

    /** The events so far lead from a pipeline with `start` attempts in progress to this point. */
    ghost predicate At(start: int, id: nat, events: seq<Event>, x: Execution)
      reads this
    {
      RunFrom(config, System(start, map[]), events) == Some(Alone(inFlight, id, x))
    }

    /** Takes one event on the machine; `x` moves along. */
    ghost method Track(start: int, id: nat, events: seq<Event>, x: Execution, e: Event)
      returns (events': seq<Event>, x': Execution)
      requires At(start, id, events, x) && Enabled(Alone(inFlight, id, x), e) && !e.Start? && !e.Attempt? && !e.Settle?
      ensures At(start, id, events', x') && x' == Advance(config, Full(config, inFlight), x, e)
    {
      RunAppend(config, System(start, map[]), events, e);
      AloneNext(config, inFlight, id, x, e);
      return events + [e], Advance(config, Full(config, inFlight), x, e);
    }

    /** Authorization: refused without hooks, otherwise up to the first hook that denies. */
    method RunAuthorize(id: nat, tagged: bool, answers: Answers, trace: seq<Step>, ghost start: int, ghost events: seq<Event>,
                        ghost x: Execution)
      returns (ok: bool, trace': seq<Step>, ghost events': seq<Event>, ghost x': Execution)
      requires At(start, id, events, x) && x.trace == trace && x.phase == Opening(config, tagged) && !Succeeded(trace)
      ensures At(start, id, events', x') && x'.trace == trace' && x' == x.(phase := x'.phase, trace := trace')
      ensures x'.phase == (if ok then AfterHooks(config) else Closing) && !Succeeded(trace')
    {
      ok, trace', events', x' := true, trace, events, x;
      if !tagged {
        return;
      }
      if config.hooks == 0 {
        return false, trace', events', x';
      }
      var i := 0;
      while i < config.hooks
        invariant 0 <= i <= config.hooks
        invariant At(start, id, events', x') && x'.trace == trace' && x' == x.(phase := x'.phase, trace := trace')
        invariant ok && !Succeeded(trace') && x'.phase == if i < config.hooks then Authorizing(i) else AfterHooks(config)
      {
        ok := answers.hook(i);
        trace' := trace' + [Hook(i, ok)];
        events', x' := Track(start, id, events', x', HookAnswers(id, ok));
        if !ok {
          return;
        }
        i := i + 1;
      }
    }

    /** The check plugins, up to the first that rejects. */
    method RunCheckPlugins(id: nat, answers: Answers, trace: seq<Step>, ghost start: int, ghost events: seq<Event>,
                           ghost x: Execution)
      returns (ok: bool, trace': seq<Step>, ghost events': seq<Event>, ghost x': Execution)
      requires At(start, id, events, x) && x.trace == trace && x.phase == AfterHooks(config) && !Succeeded(trace)
      ensures At(start, id, events', x') && x'.trace == trace' && x' == x.(phase := x'.phase, trace := trace')
      ensures x'.phase == (if ok then Ready(1) else Closing) && !Succeeded(trace')
    {
      ok, trace', events', x' := true, trace, events, x;
      var i := 0;
      while i < config.checks
        invariant 0 <= i <= config.checks
        invariant At(start, id, events', x') && x'.trace == trace' && x' == x.(phase := x'.phase, trace := trace')
        invariant ok && !Succeeded(trace') && x'.phase == if i < config.checks then Checking(i) else Ready(1)
      {
        ok := answers.check(i);
        trace' := trace' + [Check(i, ok)];
        events', x' := Track(start, id, events', x', CheckAnswers(id, ok));
        if !ok {
          return;
        }
        i := i + 1;
      }
    }

    /** One attempt: a slot is taken before the query and given back after it, however it ends. */
    method RunAttempt(id: nat, attempt: nat, answers: Answers, trace: seq<Step>, ghost start: int,
                      ghost events: seq<Event>, ghost x: Execution)
      returns (ok: bool, trace': seq<Step>, ghost events': seq<Event>, ghost x': Execution)
      requires At(start, id, events, x) && x.trace == trace && x.phase == Ready(attempt)
      modifies `inFlight
      ensures inFlight == old(inFlight)
      ensures At(start, id, events', x') && x'.trace == trace' && x' == x.(phase := x'.phase, trace := trace')
      ensures x'.phase == (if ok then Closing else Deciding(attempt)) && (ok <==> Succeeded(trace'))
    {
      var sys := System(start, map[]);
      RunAppend(config, sys, events, Attempt(id));
      AloneNext(config, inFlight, id, x, Attempt(id));
      x' := Advance(config, Full(config, inFlight), x, Attempt(id));
      events' := events + [Attempt(id)];
      if config.maxConcurrent.Some? && inFlight >= config.maxConcurrent.value {
        return false, trace + [Refused(attempt)], events', x';
      }
      inFlight := inFlight + 1;
      trace' := trace + [Before(attempt), Query(attempt)];
      ok := answers.query(attempt);
      RunAppend(config, sys, events', Settle(id, ok));
      AloneNext(config, inFlight, id, x', Settle(id, ok));
      x' := Advance(config, Full(config, inFlight), x', Settle(id, ok));
      events' := events' + [Settle(id, ok)];
      inFlight := inFlight - 1;
      trace' := trace' + [Settled(attempt, ok)];
    }

    /** Attempts until one succeeds, the limit is reached, or the policy gives up. */
    method RunWithRetry(id: nat, maxAttempts: nat, answers: Answers, trace: seq<Step>, ghost start: int,
                        ghost events: seq<Event>, ghost x: Execution)
      returns (ok: bool, trace': seq<Step>, ghost events': seq<Event>, ghost x': Execution)
      requires At(start, id, events, x) && x.trace == trace && x.phase == Ready(1) && x.maxAttempts == maxAttempts >= 1
      modifies `inFlight
      ensures inFlight == old(inFlight)
      ensures At(start, id, events', x') && x'.trace == trace' && x' == x.(phase := Closing, trace := trace')
      ensures ok <==> Succeeded(trace')
    {
      ok, trace', events', x' := false, trace, events, x;
      var attempt := 1;
      while true
        invariant 1 <= attempt <= maxAttempts && inFlight == old(inFlight)
        invariant At(start, id, events', x') && x'.trace == trace' && x' == x.(phase := Ready(attempt), trace := trace')
        decreases maxAttempts - attempt
      {
        ok, trace', events', x' := RunAttempt(id, attempt, answers, trace', start, events', x');
        if ok {
          return;
        }
        if attempt >= maxAttempts {
          events', x' := Track(start, id, events', x', Decide(id, false));
          assert x'.trace == trace';
          return;
        }
        var again := answers.retry(attempt);
        events', x' := Track(start, id, events', x', Decide(id, again));
        trace' := trace' + [Policy(attempt, again)];
        if !again {
          return;
        }
        attempt := attempt + 1;
      }
    }

    /** `execute`, not interrupted by others: a run of the machine from start to done, after which
        the slot counter is what it was. */
    method Execute(id: nat, tagged: bool, maxAttempts: nat, answers: Answers)
      returns (ok: bool, trace: seq<Step>, ghost events: seq<Event>)
      requires maxAttempts >= 1
      modifies `inFlight
      ensures inFlight == old(inFlight)
      ensures At(old(inFlight), id, events, Execution(tagged, maxAttempts, Done, trace))
      ensures trace != [] && (ok <==> Succeeded(trace[..|trace| - 1]))
    {
      ghost var start := inFlight;
      ghost var x := Execution(tagged, maxAttempts, Opening(config, tagged), [Init]);
      events := [];
      RunAppend(config, System(start, map[]), events, Start(id, tagged, maxAttempts));
      events := events + [Start(id, tagged, maxAttempts)];
      trace := [Init];
      assert At(start, id, events, x);
      ok, trace, events, x := RunAuthorize(id, tagged, answers, trace, start, events, x);
      if ok {
        ok, trace, events, x := RunCheckPlugins(id, answers, trace, start, events, x);
      }
      if ok {
        ok, trace, events, x := RunWithRetry(id, maxAttempts, answers, trace, start, events, x);
      }
      assert (trace + [End])[..|trace|] == trace;
      trace := trace + [End];
      events, x := Track(start, id, events, x, Close(id));
    }
  }
}
