/** Which step of an execution follows which: the whole course of `execute`, retries included. */
module PipelineProtocol {
  import opened QueryPipeline

  /** Authorization is over: untagged queries need none, others the last hook's consent. */
  predicate Authorized(c: Config, x: Execution, s: Step) {
    if x.tagged then c.hooks > 0 && s == Hook(c.hooks - 1, true) else s == Init
  }

  /** The checks are over. */
  predicate Checked(c: Config, x: Execution, s: Step) {
    if c.checks > 0 then s == Check(c.checks - 1, true) else Authorized(c, x, s)
  }

  /** The attempt failed: it was refused a slot, or its query failed. */
  predicate FailedAttempt(s: Step, n: nat) {
    s == Refused(n) || s == Settled(n, false)
  }

  /** Nothing but the end can follow. */
  predicate Final(c: Config, x: Execution, s: Step) {
    match s
    case Init => x.tagged && c.hooks == 0
    case Hook(_, ok) => !ok
    case Check(_, ok) => !ok
    case Settled(n, ok) => ok || n == x.maxAttempts
    case Refused(n) => n == x.maxAttempts
    case Policy(_, again) => !again
    case _ => false
  }

  /** The step `b` may come right behind `a`. */
  predicate MayFollow(c: Config, x: Execution, a: Step, b: Step) {
    match b
    case Init => false
    case Hook(k, _) => x.tagged && k < c.hooks && (if k == 0 then a == Init else a == Hook(k - 1, true))
    case Check(k, _) => k < c.checks && (if k == 0 then Authorized(c, x, a) else a == Check(k - 1, true))
    case Before(n) => if n == 1 then Checked(c, x, a) else n > 1 && a == Policy(n - 1, true)
    case Refused(n) => if n == 1 then Checked(c, x, a) else n > 1 && a == Policy(n - 1, true)
    case Query(n) => a == Before(n)
    case Settled(n, _) => a == Query(n)
    case Policy(n, _) => n < x.maxAttempts && FailedAttempt(a, n)
    case End => Final(c, x, a)
  }

  ghost predicate InCourse(c: Config, x: Execution) {
    && x.trace != [] && x.trace[0] == Init
    && forall i | 0 < i < |x.trace| :: MayFollow(c, x, x.trace[i - 1], x.trace[i])
  }

  /** Where the execution stands after its last step. */
  predicate Stands(c: Config, x: Execution, last: Step) {
    match x.phase
    case Authorizing(k) => x.tagged && k < c.hooks && (if k == 0 then last == Init else last == Hook(k - 1, true))
    case Checking(k) => k < c.checks && (if k == 0 then Authorized(c, x, last) else last == Check(k - 1, true))
    case Ready(n) => 1 <= n <= x.maxAttempts && if n == 1 then Checked(c, x, last) else last == Policy(n - 1, true)
    case Running(n) => 1 <= n <= x.maxAttempts && last == Query(n)
    case Deciding(n) => 1 <= n <= x.maxAttempts && FailedAttempt(last, n)
    case Closing => Final(c, x, last)
    case Done => last == End
  }

  ghost predicate OnCourse(c: Config, x: Execution) {
    x.maxAttempts >= 1 && InCourse(c, x) && Stands(c, x, x.trace[|x.trace| - 1])
  }

  lemma CourseAppend(c: Config, x: Execution, s: Step, y: Execution)
    requires InCourse(c, x) && MayFollow(c, x, x.trace[|x.trace| - 1], s)
    requires y.tagged == x.tagged && y.maxAttempts == x.maxAttempts && y.trace == x.trace + [s]
    ensures InCourse(c, y) && y.trace[|y.trace| - 1] == s
  {
    forall i | 0 < i < |y.trace|
      ensures MayFollow(c, y, y.trace[i - 1], y.trace[i])
    {
      if i < |x.trace| {
        assert MayFollow(c, x, x.trace[i - 1], x.trace[i]);
      }
    }
  }

  lemma StartOnCourse(c: Config, tagged: bool, maxAttempts: nat)
    requires maxAttempts >= 1
    ensures OnCourse(c, Execution(tagged, maxAttempts, Opening(c, tagged), [Init]))
  {
  }

  lemma AdvanceOnCourse(c: Config, full: bool, x: Execution, e: Event)
    requires OnCourse(c, x) && !e.Start? && Enabled(System(0, map[e.id := x]), e)
    ensures OnCourse(c, Advance(c, full, x, e))
  {
    var y := Advance(c, full, x, e);
    match e
    case HookAnswers(_, ok) => CourseAppend(c, x, Hook(x.phase.next, ok), y);
    case CheckAnswers(_, ok) => CourseAppend(c, x, Check(x.phase.next, ok), y);
    case Attempt(_) => AttemptOnCourse(c, full, x, e);
    case Settle(_, ok) => CourseAppend(c, x, Settled(x.phase.attempt, ok), y);
    case Decide(_, _) => DecisionOnCourse(c, full, x, e);
    case Close(_) => CourseAppend(c, x, End, y);
  }

  lemma DecisionOnCourse(c: Config, full: bool, x: Execution, e: Event)
    requires OnCourse(c, x) && e.Decide? && x.phase.Deciding?
    ensures OnCourse(c, Advance(c, full, x, e))
  {
    var y := Advance(c, full, x, e);
    if x.phase.attempt < x.maxAttempts {
      CourseAppend(c, x, Policy(x.phase.attempt, e.retry), y);
    } else {
      assert y.trace == x.trace;
      assert forall i | 0 < i < |y.trace| :: MayFollow(c, y, x.trace[i - 1], x.trace[i]) by {
        assert forall i | 0 < i < |x.trace| :: MayFollow(c, x, x.trace[i - 1], x.trace[i]);
      }
    }
  }

  lemma AttemptOnCourse(c: Config, full: bool, x: Execution, e: Event)
    requires OnCourse(c, x) && e.Attempt? && x.phase.Ready?
    ensures OnCourse(c, Advance(c, full, x, e))
  {
    var n, y := x.phase.attempt, Advance(c, full, x, e);
    if full {
      CourseAppend(c, x, Refused(n), y);
    } else {
      var z := x.(trace := x.trace + [Before(n)]);
      CourseAppend(c, x, Before(n), z);
      assert y.trace == z.trace + [Query(n)];
      CourseAppend(c, z, Query(n), y);
    }
  }

  lemma {:induction false} AllOnCourse(c: Config, events: seq<Event>)
    requires Run(c, events).Some?
    ensures forall id | id in Run(c, events).value.executions :: OnCourse(c, Run(c, events).value.executions[id])
  {
    if events != [] {
      var front, e := events[..|events| - 1], events[|events| - 1];
      AllOnCourse(c, front);
      var sys := Run(c, front).value;
      if e.Start? {
        StartOnCourse(c, e.tagged, e.maxAttempts);
      } else {
        AdvanceOnCourse(c, Full(c, sys.inFlight), sys.executions[e.id], e);
      }
    }
  }

  /** In every run each step of an execution follows the one before it as the course has it, and
      an execution that is not done has more to come: the next event always finds it on course. */
  lemma CourseInEveryRun(c: Config, events: seq<Event>, id: nat)
    requires Run(c, events).Some? && id in Run(c, events).value.executions
    ensures var x := Run(c, events).value.executions[id];
            InCourse(c, x) && (x.phase.Done? <==> x.trace[|x.trace| - 1] == End)
  {
    AllOnCourse(c, events);
  }

  /** Attempt n + 1 follows exactly when attempt n was refused or failed, was not the last one allowed,
      and the policy wants another; in any other case the execution ends. */
  lemma RetriesInEveryRun(c: Config, events: seq<Event>, id: nat, i: nat, n: nat)
    requires Run(c, events).Some? && id in Run(c, events).value.executions
    requires i + 1 < |Run(c, events).value.executions[id].trace|
    ensures var x := Run(c, events).value.executions[id];
            var a, b := x.trace[i], x.trace[i + 1];
            && (FailedAttempt(a, n) ==> if n < x.maxAttempts then b.Policy? && b.attempt == n else b == End)
            && (a == Policy(n, true) ==> b == Before(n + 1) || b == Refused(n + 1))
            && (a == Policy(n, false) || a == Settled(n, true) ==> b == End)
            && (n >= 1 && (b == Before(n + 1) || b == Refused(n + 1)) ==>
                  i > 0 && a == Policy(n, true) && FailedAttempt(x.trace[i - 1], n) && n < x.maxAttempts)
  {
    AllOnCourse(c, events);
    var x := Run(c, events).value.executions[id];
    assert MayFollow(c, x, x.trace[i], x.trace[i + 1]);
    if i > 0 {
      assert MayFollow(c, x, x.trace[i - 1], x.trace[i]);
    }
  }
}
