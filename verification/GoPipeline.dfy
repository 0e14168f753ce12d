/** The Go pipeline's `Execute`: what it calls, in which order, and when every Init gets its End. */
module GoPipeline {
  /** How a call into foreign code ends: it returns, returns an error, or panics. */
  datatype Answer = Returns | Refuses | Panics

  /** How one plugin answers. A panic of Init or Before is recovered and reported to OnError, whose
      own panic nobody recovers; neither is one of Check or End. */
  datatype Plugin = Plugin(initPanics: bool, check: Answer, beforePanics: bool, endPanics: bool, errorPanics: bool)

  datatype Step =
    | Init(plugin: nat)
    | OnError(plugin: nat)
    | Hook(index: nat)
    | Check(plugin: nat)
    | Before(plugin: nat)
    | Call
    | End(plugin: nat)

  // ------------------------------------------------------------------ the calls

  /** A recovered call, with the error report its panic leads to. */
  function Guarded(step: Step, panics: bool, i: nat): seq<Step> {
    [step] + (if panics then [OnError(i)] else [])
  }

  function InitSteps(plugins: seq<Plugin>, n: nat): seq<Step>
    requires n <= |plugins|
  {
    if n == 0 then []
    else InitSteps(plugins, n - 1) + Guarded(Init(n - 1), plugins[n - 1].initPanics, n - 1)
  }

  function BeforeSteps(plugins: seq<Plugin>, n: nat): seq<Step>
    requires n <= |plugins|
  {
    if n == 0 then []
    else BeforeSteps(plugins, n - 1) + Guarded(Before(n - 1), plugins[n - 1].beforePanics, n - 1)
  }

  function HookSteps(n: nat): seq<Step> {
    if n == 0 then [] else HookSteps(n - 1) + [Hook(n - 1)]
  }

  function CheckSteps(n: nat): seq<Step> {
    if n == 0 then [] else CheckSteps(n - 1) + [Check(n - 1)]
  }

  function EndSteps(n: nat): seq<Step> {
    if n == 0 then [] else EndSteps(n - 1) + [End(n - 1)]
  }

  /** A panic leaves Init or Before only when its report panics too. */
  function InitOf(): Plugin -> Answer {
    (p: Plugin) => if p.initPanics && p.errorPanics then Panics else Returns
  }

  function BeforeOf(): Plugin -> Answer {
    (p: Plugin) => if p.beforePanics && p.errorPanics then Panics else Returns
  }

  function CheckOf(): Plugin -> Answer { (p: Plugin) => p.check }

  function EndOf(): Plugin -> Answer { (p: Plugin) => if p.endPanics then Panics else Returns }

  function Itself(): Answer -> Answer { (a: Answer) => a }

  /** How many are called, up to and with the first that does not return. */
  function Called<T>(items: seq<T>, answer: T -> Answer): (n: nat)
    ensures n <= |items|
  {
    if items == [] then 0
    else if answer(items[0]).Returns? then 1 + Called(items[1..], answer)
    else 1
  }

  /** What they amount to: the first answer that is not a return. */
  function Verdict<T>(items: seq<T>, answer: T -> Answer): Answer {
    if items == [] then Returns
    else if answer(items[0]).Returns? then Verdict(items[1..], answer)
    else answer(items[0])
  }

  lemma {:induction false} CalledPrefix<T>(items: seq<T>, answer: T -> Answer, i: nat)
    requires i <= |items| && forall j | 0 <= j < i :: answer(items[j]).Returns?
    ensures Called(items, answer) == i + Called(items[i..], answer)
    ensures Verdict(items, answer) == Verdict(items[i..], answer)
  {
    if i > 0 {
      CalledPrefix(items[1..], answer, i - 1);
      assert items[1..][i - 1..] == items[i..];
    } else {
      assert items[0..] == items;
    }
  }

  /** Everything between the Inits and the Ends, and how it ends. */
  function Middle(tagged: bool, hooks: seq<Answer>, plugins: seq<Plugin>, fn: Answer): (seq<Step>, Answer) {
    var asked := if tagged then hooks else [];
    var hookSteps := HookSteps(Called(asked, Itself()));
    var allowed := Verdict(asked, Itself());
    if !allowed.Returns? then (hookSteps, allowed)
    else
      var checkSteps := hookSteps + CheckSteps(Called(plugins, CheckOf()));
      var passed := Verdict(plugins, CheckOf());
      if !passed.Returns? then (checkSteps, passed)
      else
        var beforeSteps := checkSteps + BeforeSteps(plugins, Called(plugins, BeforeOf()));
        var prepared := Verdict(plugins, BeforeOf());
        if !prepared.Returns? then (beforeSteps, prepared)
        else (beforeSteps + [Call], fn)
  }

  /** All steps of an execution. A panic that nobody recovers skips everything behind it. */
  function Trace(tagged: bool, hooks: seq<Answer>, plugins: seq<Plugin>, fn: Answer): seq<Step> {
    var inits := InitSteps(plugins, Called(plugins, InitOf()));
    if !Verdict(plugins, InitOf()).Returns? then inits
    else
      var middle := Middle(tagged, hooks, plugins, fn);
      inits + middle.0 + (if middle.1.Panics? then [] else EndSteps(Called(plugins, EndOf())))
  }

  /** How an execution ends for its caller. */
  function Outcome(tagged: bool, hooks: seq<Answer>, plugins: seq<Plugin>, fn: Answer): Answer {
    var middle := Middle(tagged, hooks, plugins, fn).1;
    if Verdict(plugins, InitOf()).Panics? || middle.Panics? || Verdict(plugins, EndOf()).Panics? then Panics
    else middle
  }

  class QueryPipeline {
    var plugins: seq<Plugin>
    var authHooks: seq<Answer>

    constructor ()
      ensures plugins == [] && authHooks == []
    {
      plugins, authHooks := [], [];
    }

    method Use(plugin: Plugin)
      modifies `plugins
      ensures plugins == old(plugins) + [plugin]
    {
      plugins := plugins + [plugin];
    }

    method RegisterAuthorization(hook: Answer)
      modifies `authHooks
      ensures authHooks == old(authHooks) + [hook]
    {
      authHooks := authHooks + [hook];
    }

    method RunInits() returns (answer: Answer, trace: seq<Step>)
      ensures trace == InitSteps(plugins, Called(plugins, InitOf())) && answer == Verdict(plugins, InitOf())
      ensures !answer.Refuses?
    {
      trace := [];
      for i := 0 to |plugins|
        invariant trace == InitSteps(plugins, i) && forall j | 0 <= j < i :: InitOf()(plugins[j]).Returns?
      {
        trace := trace + [Init(i)];
        if plugins[i].initPanics {
          trace := trace + [OnError(i)];
          if plugins[i].errorPanics {
            CalledPrefix(plugins, InitOf(), i);
            return Panics, trace;
          }
        }
      }
      CalledPrefix(plugins, InitOf(), |plugins|);
      return Returns, trace;
    }

    method RunBefores() returns (answer: Answer, trace: seq<Step>)
      ensures trace == BeforeSteps(plugins, Called(plugins, BeforeOf())) && answer == Verdict(plugins, BeforeOf())
    {
      trace := [];
      for i := 0 to |plugins|
        invariant trace == BeforeSteps(plugins, i) && forall j | 0 <= j < i :: BeforeOf()(plugins[j]).Returns?
      {
        trace := trace + [Before(i)];
        if plugins[i].beforePanics {
          trace := trace + [OnError(i)];
          if plugins[i].errorPanics {
            CalledPrefix(plugins, BeforeOf(), i);
            return Panics, trace;
          }
        }
      }
      CalledPrefix(plugins, BeforeOf(), |plugins|);
      return Returns, trace;
    }

    method RunHooks() returns (answer: Answer, trace: seq<Step>)
      ensures trace == HookSteps(Called(authHooks, Itself())) && answer == Verdict(authHooks, Itself())
    {
      trace := [];
      for i := 0 to |authHooks|
        invariant trace == HookSteps(i) && forall j | 0 <= j < i :: authHooks[j].Returns?
      {
        trace := trace + [Hook(i)];
        if !authHooks[i].Returns? {
          CalledPrefix(authHooks, Itself(), i);
          return authHooks[i], trace;
        }
      }
      CalledPrefix(authHooks, Itself(), |authHooks|);
      return Returns, trace;
    }

    method RunChecks() returns (answer: Answer, trace: seq<Step>)
      ensures trace == CheckSteps(Called(plugins, CheckOf())) && answer == Verdict(plugins, CheckOf())
    {
      trace := [];
      for i := 0 to |plugins|
        invariant trace == CheckSteps(i) && forall j | 0 <= j < i :: plugins[j].check.Returns?
      {
        trace := trace + [Check(i)];
        if !plugins[i].check.Returns? {
          CalledPrefix(plugins, CheckOf(), i);
          return plugins[i].check, trace;
        }
      }
      CalledPrefix(plugins, CheckOf(), |plugins|);
      return Returns, trace;
    }

    method RunEnds() returns (panicked: bool, trace: seq<Step>)
      ensures trace == EndSteps(Called(plugins, EndOf())) && (panicked <==> Verdict(plugins, EndOf()).Panics?)
    {
      trace := [];
      for i := 0 to |plugins|
        invariant trace == EndSteps(i) && forall j | 0 <= j < i :: EndOf()(plugins[j]).Returns?
      {
        trace := trace + [End(i)];
        if plugins[i].endPanics {
          CalledPrefix(plugins, EndOf(), i);
          return true, trace;
        }
      }
      CalledPrefix(plugins, EndOf(), |plugins|);
      return false, trace;
    }

    /** Authorization, checks, befores and the call itself; a refusal jumps behind them. */
    method RunMiddle(tagged: bool, fn: Answer) returns (answer: Answer, trace: seq<Step>)
      ensures (trace, answer) == Middle(tagged, authHooks, plugins, fn)
    {
      trace, answer := [], Returns;
      if tagged {
        answer, trace := RunHooks();
        if !answer.Returns? {
          return;
        }
      }
      var steps: seq<Step>;
      answer, steps := RunChecks();
      trace := trace + steps;
      if !answer.Returns? {
        return;
      }
      answer, steps := RunBefores();
      trace := trace + steps;
      if !answer.Returns? {
        return;
      }
      trace, answer := trace + [Call], fn;
    }

    method Execute(tagged: bool, fn: Answer) returns (answer: Answer, trace: seq<Step>)
      ensures trace == Trace(tagged, authHooks, plugins, fn)
      ensures answer == Outcome(tagged, authHooks, plugins, fn)
    {
      answer, trace := RunInits();
      if answer.Panics? {
        return;
      }
      var steps: seq<Step>;
      answer, steps := RunMiddle(tagged, fn);
      trace := trace + steps;
      if answer.Panics? {
        assert trace + [] == trace;
        return;
      }
      var panicked: bool;
      panicked, steps := RunEnds();
      trace := trace + steps;
      if panicked {
        answer := Panics;
      }
    }
  }

  // ------------------------------------------------------- conditions on the inputs

  ghost predicate AllReturn<T>(items: seq<T>, answer: T -> Answer) {
    forall x | x in items :: answer(x).Returns?
  }

  /** The first that does not return panics. */
  ghost predicate PanicsFirst<T>(items: seq<T>, answer: T -> Answer) {
    exists i | 0 <= i < |items| ::
      answer(items[i]).Panics? && forall j | 0 <= j < i :: answer(items[j]).Returns?
  }

  /** No Init panics with a report that panics too. */
  ghost predicate InitsRecover(plugins: seq<Plugin>) {
    forall p | p in plugins :: p.initPanics ==> !p.errorPanics
  }

  ghost predicate BeforesRecover(plugins: seq<Plugin>) {
    forall p | p in plugins :: p.beforePanics ==> !p.errorPanics
  }

  /** Every hook, of a tagged query, and every check lets the query through. */
  ghost predicate Granted(tagged: bool, hooks: seq<Answer>, plugins: seq<Plugin>) {
    && (tagged ==> forall hook | hook in hooks :: hook.Returns?)
    && (forall p | p in plugins :: p.check.Returns?)
  }

  /** No panic escapes before the end phase: not from a report of an Init, not from the hook or
      check that decides, and, once the query is granted, not from a report of a Before nor from
      the query itself. */
  ghost predicate ReachesEnd(tagged: bool, hooks: seq<Answer>, plugins: seq<Plugin>, fn: Answer) {
    && InitsRecover(plugins)
    && (tagged ==> !PanicsFirst(hooks, Itself()))
    && ((tagged ==> AllReturn(hooks, Itself())) ==> !PanicsFirst(plugins, CheckOf()))
    && (Granted(tagged, hooks, plugins) ==> BeforesRecover(plugins) && !fn.Panics?)
  }

  lemma {:induction false} VerdictMeans<T>(items: seq<T>, answer: T -> Answer)
    ensures Verdict(items, answer).Returns? <==> AllReturn(items, answer)
    ensures Verdict(items, answer).Panics? <==> PanicsFirst(items, answer)
  {
    if items != [] {
      var rest := items[1..];
      VerdictMeans(rest, answer);
      assert items == [items[0]] + rest;
      PanicsFirstCons(items[0], rest, answer);
    }
  }

  lemma PanicsFirstCons<T>(x: T, rest: seq<T>, answer: T -> Answer)
    ensures PanicsFirst([x] + rest, answer) <==>
            answer(x).Panics? || (answer(x).Returns? && PanicsFirst(rest, answer))
  {
    var items := [x] + rest;
    if PanicsFirst(items, answer) && !answer(x).Panics? {
      var i :| 0 <= i < |items| && answer(items[i]).Panics? && forall j | 0 <= j < i :: answer(items[j]).Returns?;
      assert answer(items[0]).Returns? && items[i] == rest[i - 1];
      assert forall j | 0 <= j < i - 1 :: rest[j] == items[j + 1];
    }
    if answer(x).Panics? {
      assert answer(items[0]).Panics?;
    }
    if answer(x).Returns? && PanicsFirst(rest, answer) {
      var i :| 0 <= i < |rest| && answer(rest[i]).Panics? && forall j | 0 <= j < i :: answer(rest[j]).Returns?;
      assert items[i + 1] == rest[i];
      assert forall j | 1 <= j < i + 1 :: items[j] == rest[j - 1];
    }
  }

  lemma Verdicts(tagged: bool, hooks: seq<Answer>, plugins: seq<Plugin>)
    ensures var asked := if tagged then hooks else [];
            && (Verdict(plugins, InitOf()).Returns? <==> InitsRecover(plugins))
            && (Verdict(plugins, BeforeOf()).Returns? <==> BeforesRecover(plugins))
            && (Verdict(asked, Itself()).Returns? && Verdict(plugins, CheckOf()).Returns? <==>
                Granted(tagged, hooks, plugins))
  {
    VerdictMeans(plugins, InitOf());
    VerdictMeans(plugins, BeforeOf());
    VerdictMeans(if tagged then hooks else [], Itself());
    VerdictMeans(plugins, CheckOf());
    assert forall p: Plugin :: InitOf()(p).Returns? <==> (p.initPanics ==> !p.errorPanics);
    assert forall p: Plugin :: BeforeOf()(p).Returns? <==> (p.beforePanics ==> !p.errorPanics);
  }

  /** The end phase is reached exactly when no panic escapes before it. */
  lemma ReachesEndMeans(tagged: bool, hooks: seq<Answer>, plugins: seq<Plugin>, fn: Answer)
    ensures ReachesEnd(tagged, hooks, plugins, fn) <==>
            Verdict(plugins, InitOf()).Returns? && !Middle(tagged, hooks, plugins, fn).1.Panics?
  {
    Verdicts(tagged, hooks, plugins);
    VerdictMeans(if tagged then hooks else [], Itself());
    VerdictMeans(plugins, CheckOf());
  }

  /** All but the last must return for every one to be called. */
  lemma {:induction false} AllCalled<T>(items: seq<T>, answer: T -> Answer)
    ensures Called(items, answer) == |items| <==> forall j | 0 <= j < |items| - 1 :: answer(items[j]).Returns?
  {
    if items != [] {
      var rest := items[1..];
      AllCalled(rest, answer);
      assert forall j | 0 <= j < |rest| :: rest[j] == items[j + 1];
      assert (forall j | 0 <= j < |items| - 1 :: answer(items[j]).Returns?) <==>
             (|items| > 1 ==> answer(items[0]).Returns?) && forall j | 0 <= j < |rest| - 1 :: answer(rest[j]).Returns? by {
        assert forall j | 1 <= j < |items| - 1 :: items[j] == rest[j - 1];
      }
    }
  }

  // -------------------------------------------------------------- order of the calls

  /** The phases of an execution, in order. */
  function Phase(s: Step): nat {
    match s
    case Init(_) => 0
    case Hook(_) => 1
    case Check(_) => 2
    case Before(_) => 3
    case Call => 4
    case End(_) => 5
    case OnError(_) => 6
  }

  function Position(s: Step): nat {
    match s
    case Init(i) => i
    case OnError(i) => i
    case Hook(i) => i
    case Check(i) => i
    case Before(i) => i
    case Call => 0
    case End(i) => i
  }

  /** Phase by phase, and in registration order within a phase. */
  ghost predicate Precedes(a: Step, b: Step) {
    a.OnError? || b.OnError? || Phase(a) < Phase(b) || (Phase(a) == Phase(b) && Position(a) < Position(b))
  }

  ghost predicate InOrder(steps: seq<Step>) {
    forall i, j | 0 <= i < j < |steps| :: Precedes(steps[i], steps[j])
  }

  ghost predicate Within(steps: seq<Step>, low: nat, high: nat) {
    forall s | s in steps :: s.OnError? || low <= Phase(s) < high
  }

  lemma OrderConcat(a: seq<Step>, b: seq<Step>)
    requires InOrder(a) && InOrder(b) && forall x, y | x in a && y in b :: Precedes(x, y)
    ensures InOrder(a + b)
  {
  }

  lemma PhasesConcat(a: seq<Step>, b: seq<Step>, low: nat, middle: nat, high: nat)
    requires low <= middle <= high && InOrder(a) && InOrder(b) && Within(a, low, middle) && Within(b, middle, high)
    ensures InOrder(a + b) && Within(a + b, low, high)
  {
    OrderConcat(a, b);
  }

  /** A run of calls of one phase, each at its own position, all of which come after the others. */
  ghost predicate Row(steps: seq<Step>, phase: nat, n: nat) {
    && InOrder(steps)
    && (forall s | s in steps :: !s.OnError? ==> Phase(s) == phase && Position(s) < n)
  }

  lemma RowNext(steps: seq<Step>, phase: nat, n: nat, call: Step, report: seq<Step>)
    requires Row(steps, phase, n) && Phase(call) == phase && Position(call) == n && phase < 6
    requires report == [] || report == [OnError(n)]
    ensures Row(steps + ([call] + report), phase, n + 1)
  {
    OrderConcat(steps, [call] + report);
  }

  lemma {:induction false} InitRow(plugins: seq<Plugin>, n: nat)
    requires n <= |plugins|
    ensures Row(InitSteps(plugins, n), 0, n)
  {
    if n > 0 {
      InitRow(plugins, n - 1);
      RowNext(InitSteps(plugins, n - 1), 0, n - 1, Init(n - 1), if plugins[n - 1].initPanics then [OnError(n - 1)] else []);
    }
  }

  lemma {:induction false} BeforeRow(plugins: seq<Plugin>, n: nat)
    requires n <= |plugins|
    ensures Row(BeforeSteps(plugins, n), 3, n)
  {
    if n > 0 {
      BeforeRow(plugins, n - 1);
      RowNext(BeforeSteps(plugins, n - 1), 3, n - 1, Before(n - 1),
              if plugins[n - 1].beforePanics then [OnError(n - 1)] else []);
    }
  }

  lemma {:induction false} PlainRows(n: nat)
    ensures Row(HookSteps(n), 1, n) && Row(CheckSteps(n), 2, n) && Row(EndSteps(n), 5, n)
  {
    if n > 0 {
      PlainRows(n - 1);
      assert [Hook(n - 1)] + [] == [Hook(n - 1)] && [Check(n - 1)] + [] == [Check(n - 1)];
      assert [End(n - 1)] + [] == [End(n - 1)];
      RowNext(HookSteps(n - 1), 1, n - 1, Hook(n - 1), []);
      RowNext(CheckSteps(n - 1), 2, n - 1, Check(n - 1), []);
      RowNext(EndSteps(n - 1), 5, n - 1, End(n - 1), []);
    }
  }

  lemma MiddleInOrder(tagged: bool, hooks: seq<Answer>, plugins: seq<Plugin>, fn: Answer)
    ensures var steps := Middle(tagged, hooks, plugins, fn).0; InOrder(steps) && Within(steps, 1, 5)
  {
    var hookSteps := HookSteps(Called(if tagged then hooks else [], Itself()));
    var checkSteps := CheckSteps(Called(plugins, CheckOf()));
    var beforeSteps := BeforeSteps(plugins, Called(plugins, BeforeOf()));
    PlainRows(Called(if tagged then hooks else [], Itself()));
    PlainRows(Called(plugins, CheckOf()));
    BeforeRow(plugins, Called(plugins, BeforeOf()));
    PhasesConcat(hookSteps, checkSteps, 1, 2, 3);
    PhasesConcat(hookSteps + checkSteps, beforeSteps, 1, 3, 4);
    PhasesConcat(hookSteps + checkSteps + beforeSteps, [Call], 1, 4, 5);
  }

  /** Calls come phase by phase - Inits, hooks, checks, Befores, the query, Ends - and in
      registration order within a phase, so none happens twice. */
  lemma CallsInOrder(tagged: bool, hooks: seq<Answer>, plugins: seq<Plugin>, fn: Answer)
    ensures InOrder(Trace(tagged, hooks, plugins, fn))
  {
    var inits, middle := InitSteps(plugins, Called(plugins, InitOf())), Middle(tagged, hooks, plugins, fn);
    var ends := if middle.1.Panics? then [] else EndSteps(Called(plugins, EndOf()));
    InitRow(plugins, Called(plugins, InitOf()));
    MiddleInOrder(tagged, hooks, plugins, fn);
    PlainRows(Called(plugins, EndOf()));
    PhasesConcat(inits, middle.0, 0, 1, 5);
    PhasesConcat(inits + middle.0, ends, 0, 5, 6);
  }

  // ------------------------------------------------------------- which calls happen

  lemma {:induction false} RowsHold(plugins: seq<Plugin>, n: nat, s: Step)
    requires n <= |plugins| && !s.OnError?
    ensures s in InitSteps(plugins, n) <==> s.Init? && s.plugin < n
    ensures s in BeforeSteps(plugins, n) <==> s.Before? && s.plugin < n
  {
    if n > 0 {
      RowsHold(plugins, n - 1, s);
    }
  }

  lemma {:induction false} PlainRowsHold(n: nat, s: Step)
    ensures s in HookSteps(n) <==> s.Hook? && s.index < n
    ensures s in CheckSteps(n) <==> s.Check? && s.plugin < n
    ensures s in EndSteps(n) <==> s.End? && s.plugin < n
  {
    if n > 0 {
      PlainRowsHold(n - 1, s);
    }
  }

  lemma MiddleHolds(tagged: bool, hooks: seq<Answer>, plugins: seq<Plugin>, fn: Answer, s: Step)
    requires !s.OnError?
    ensures var asked := if tagged then hooks else [];
            var allowed := Verdict(asked, Itself()).Returns?;
            var passed := allowed && Verdict(plugins, CheckOf()).Returns?;
            s in Middle(tagged, hooks, plugins, fn).0 <==>
              match s
              case Hook(i) => i < Called(asked, Itself())
              case Check(i) => allowed && i < Called(plugins, CheckOf())
              case Before(i) => passed && i < Called(plugins, BeforeOf())
              case Call => passed && Verdict(plugins, BeforeOf()).Returns?
              case _ => false
  {
    PlainRowsHold(Called(if tagged then hooks else [], Itself()), s);
    PlainRowsHold(Called(plugins, CheckOf()), s);
    RowsHold(plugins, Called(plugins, BeforeOf()), s);
  }

  lemma TraceHolds(tagged: bool, hooks: seq<Answer>, plugins: seq<Plugin>, fn: Answer, s: Step)
    requires !s.OnError?
    ensures s in Trace(tagged, hooks, plugins, fn) <==>
            if s.Init? then s.plugin < Called(plugins, InitOf())
            else if s.End? then ReachesEnd(tagged, hooks, plugins, fn) && s.plugin < Called(plugins, EndOf())
            else InitsRecover(plugins) && s in Middle(tagged, hooks, plugins, fn).0
  {
    Verdicts(tagged, hooks, plugins);
    ReachesEndMeans(tagged, hooks, plugins, fn);
    RowsHold(plugins, Called(plugins, InitOf()), s);
    MiddleHolds(tagged, hooks, plugins, fn, s);
    PlainRowsHold(Called(plugins, EndOf()), s);
  }

  lemma {:induction false} AllReturnAllCalled<T>(items: seq<T>, answer: T -> Answer)
    requires Verdict(items, answer).Returns?
    ensures Called(items, answer) == |items|
  {
    if items != [] {
      AllReturnAllCalled(items[1..], answer);
    }
  }

  /** The query runs exactly when every hook (of a tagged query) and every check lets it and the
      panics of Init and Before are all recovered. By then every plugin has had its Init, its
      check and its Before, and every hook has been asked. */
  lemma CallMeans(tagged: bool, hooks: seq<Answer>, plugins: seq<Plugin>, fn: Answer)
    ensures var trace := Trace(tagged, hooks, plugins, fn);
            && (Call in trace <==>
                InitsRecover(plugins) && Granted(tagged, hooks, plugins) && BeforesRecover(plugins))
            && (Call in trace ==>
                && (forall i: nat | i < |plugins| :: Init(i) in trace && Check(i) in trace && Before(i) in trace)
                && (tagged ==> forall i: nat | i < |hooks| :: Hook(i) in trace))
  {
    Verdicts(tagged, hooks, plugins);
    TraceHolds(tagged, hooks, plugins, fn, Call);
    MiddleHolds(tagged, hooks, plugins, fn, Call);
    if Call in Trace(tagged, hooks, plugins, fn) {
      AllReturnAllCalled(plugins, InitOf());
      AllReturnAllCalled(plugins, CheckOf());
      AllReturnAllCalled(plugins, BeforeOf());
      AllReturnAllCalled(if tagged then hooks else [], Itself());
      forall s: Step | (s.Init? || s.Check? || s.Before?) && s.plugin < |plugins|
        ensures s in Trace(tagged, hooks, plugins, fn)
      {
        TraceHolds(tagged, hooks, plugins, fn, s);
        MiddleHolds(tagged, hooks, plugins, fn, s);
      }
      forall s: Step | tagged && s.Hook? && s.index < |hooks|
        ensures s in Trace(tagged, hooks, plugins, fn)
      {
        TraceHolds(tagged, hooks, plugins, fn, s);
        MiddleHolds(tagged, hooks, plugins, fn, s);
      }
    }
  }

  /** A Before happens only when every hook and every check let the query through. */
  lemma BeforeMeans(tagged: bool, hooks: seq<Answer>, plugins: seq<Plugin>, fn: Answer, i: nat)
    ensures Before(i) in Trace(tagged, hooks, plugins, fn) <==>
            && i < |plugins| && InitsRecover(plugins) && Granted(tagged, hooks, plugins)
            && BeforesRecover(plugins[..i])
  {
    Verdicts(tagged, hooks, plugins);
    TraceHolds(tagged, hooks, plugins, fn, Before(i));
    MiddleHolds(tagged, hooks, plugins, fn, Before(i));
    CalledMeans(plugins, BeforeOf(), i);
    assert forall p: Plugin :: BeforeOf()(p).Returns? <==> (p.beforePanics ==> !p.errorPanics);
  }

  /** One is called exactly when all in front of it return. */
  lemma {:induction false} CalledMeans<T>(items: seq<T>, answer: T -> Answer, i: nat)
    ensures i < Called(items, answer) <==> i < |items| && AllReturn(items[..i], answer)
  {
    if 0 < i < |items| {
      CalledMeans(items[1..], answer, i - 1);
      assert items[..i] == [items[0]] + items[1..][..i - 1];
    }
  }

  /** Every plugin's Init gets its End exactly when the end phase is reached and no End panics
      but the last. Nothing is inited or ended twice (`CallsInOrder`). */
  lemma InitsAndEndsPair(tagged: bool, hooks: seq<Answer>, plugins: seq<Plugin>, fn: Answer)
    ensures var trace := Trace(tagged, hooks, plugins, fn);
            var clean := ReachesEnd(tagged, hooks, plugins, fn) && forall j | 0 <= j < |plugins| - 1 :: !plugins[j].endPanics;
            && (forall i: nat :: Init(i) in trace <==> i < |plugins| && InitsRecover(plugins[..i]))
            && ((forall i: nat :: Init(i) in trace <==> End(i) in trace) <==> plugins == [] || clean)
            && (clean ==> forall i: nat | i < |plugins| :: Init(i) in trace && End(i) in trace)
  {
    var trace := Trace(tagged, hooks, plugins, fn);
    AllCalled(plugins, EndOf());
    Verdicts(tagged, hooks, plugins);
    forall i: nat
      ensures Init(i) in trace <==> i < |plugins| && InitsRecover(plugins[..i])
      ensures Init(i) in trace <==> i < Called(plugins, InitOf())
      ensures End(i) in trace <==> ReachesEnd(tagged, hooks, plugins, fn) && i < Called(plugins, EndOf())
    {
      TraceHolds(tagged, hooks, plugins, fn, Init(i));
      TraceHolds(tagged, hooks, plugins, fn, End(i));
      CalledMeans(plugins, InitOf(), i);
      assert forall p: Plugin :: InitOf()(p).Returns? <==> (p.initPanics ==> !p.errorPanics);
    }
    if InitsRecover(plugins) {
      AllReturnAllCalled(plugins, InitOf());
    }
    if plugins != [] {
      assert Init(0) in trace;
      assert ReachesEnd(tagged, hooks, plugins, fn) ==> Init(|plugins| - 1) in trace;
      assert ReachesEnd(tagged, hooks, plugins, fn) ==> (End(|plugins| - 1) in trace <==> Called(plugins, EndOf()) == |plugins|);
    }
  }

  /** The caller sees a panic exactly when one escapes; otherwise the first refusal, and without one
      what the query answers. */
  lemma OutcomeMeans(tagged: bool, hooks: seq<Answer>, plugins: seq<Plugin>, fn: Answer)
    ensures var outcome := Outcome(tagged, hooks, plugins, fn);
            && (outcome == Panics <==>
                !ReachesEnd(tagged, hooks, plugins, fn) || exists j | 0 <= j < |plugins| :: plugins[j].endPanics)
            && (outcome == Returns ==> Granted(tagged, hooks, plugins) && fn == Returns)
            && (outcome == Refuses ==> Granted(tagged, hooks, plugins) ==> fn == Refuses)
  {
    Verdicts(tagged, hooks, plugins);
    ReachesEndMeans(tagged, hooks, plugins, fn);
    EndsPanic(plugins);
    NeverRefuses(plugins, InitOf());
    NeverRefuses(plugins, BeforeOf());
  }

  lemma {:induction false} NeverRefuses(plugins: seq<Plugin>, answer: Plugin -> Answer)
    requires forall p :: !answer(p).Refuses?
    ensures !Verdict(plugins, answer).Refuses?
  {
    if plugins != [] {
      NeverRefuses(plugins[1..], answer);
    }
  }

  lemma {:induction false} EndsPanic(plugins: seq<Plugin>)
    ensures Verdict(plugins, EndOf()).Panics? <==> exists j | 0 <= j < |plugins| :: plugins[j].endPanics
    ensures !Verdict(plugins, EndOf()).Refuses?
  {
    if plugins != [] {
      EndsPanic(plugins[1..]);
      assert forall j | 1 <= j < |plugins| :: plugins[j] == plugins[1..][j - 1];
    }
  }

  /** Two plugins, no hook and nothing but one faulty plugin: its Init panics, its report panics,
      the other plugin is never inited and nobody is ended. */
  lemma PairingFails()
    ensures var faulty := Plugin(true, Returns, false, false, true);
            var sound := Plugin(false, Returns, false, false, false);
            && Trace(false, [], [faulty, sound], Returns) == [Init(0), OnError(0)]
            && Outcome(false, [], [faulty, sound], Returns) == Panics
  {
    var plugins := [Plugin(true, Returns, false, false, true), Plugin(false, Returns, false, false, false)];
    assert InitOf()(plugins[0]) == Panics;
    assert Called(plugins, InitOf()) == 1;
    assert InitSteps(plugins, 1) == InitSteps(plugins, 0) + Guarded(Init(0), true, 0);
  }
}
