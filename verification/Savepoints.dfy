/** Nested savepoints as commands over a stack of markers, and the interpreter they refine. */
module Savepoints {

  import opened Wrappers

  datatype Dialect = Postgres | Mssql | Sqlite3

  /** A callback: writes, throws, branches, catches, and nested savepoints. */
  datatype Program<!D> =
    | Write(effect: D -> D)
    | Throw
    | Seq(first: Program<D>, second: Program<D>)
    | If(test: D -> bool, yes: Program<D>, no: Program<D>)
    | Catch(body: Program<D>, handler: Program<D>)
    | Savepoint(name: string, body: Program<D>)

  /** How a program ended: the data it left, and whether it threw. */
  datatype Outcome<D> = Outcome(state: D, threw: bool)

  // --------------------------------------------------- the intended meaning

  /** A savepoint whose body throws has no effect. */
  ghost function Meaning<D>(p: Program<D>, d: D): Outcome<D>
    decreases p
  {
    match p
    case Write(effect) => Outcome(effect(d), false)
    case Throw => Outcome(d, true)
    case Seq(first, second) =>
      var one := Meaning(first, d);
      if one.threw then one else Meaning(second, one.state)
    case If(test, yes, no) => if test(d) then Meaning(yes, d) else Meaning(no, d)
    case Catch(body, handler) =>
      var one := Meaning(body, d);
      if one.threw then Meaning(handler, one.state) else one
    case Savepoint(_, body) =>
      var one := Meaning(body, d);
      if one.threw then Outcome(d, true) else one
  }

  /** A transaction whose callback throws has no effect. */
  ghost function TransactionMeaning<D>(p: Program<D>, d: D): Outcome<D> {
    var one := Meaning(p, d);
    if one.threw then Outcome(d, true) else one
  }

  // ------------------------------------------------ the database's side of it

  datatype Marker<D> = Marker(name: string, saved: D)

  /** An open transaction: the data as it sees it, and its markers, the newest last. */
  datatype Session<D> = Session(state: D, markers: seq<Marker<D>>)

  /** The newest marker of that name. */
  function Find<D>(markers: seq<Marker<D>>, name: string): (r: Option<nat>)
    ensures r.Some? ==> r.value < |markers| && markers[r.value].name == name
    ensures r.Some? ==> forall i | r.value < i < |markers| :: markers[i].name != name
    ensures r.None? ==> forall i | 0 <= i < |markers| :: markers[i].name != name
  {
    if markers == [] then None
    else if markers[|markers| - 1].name == name then Some(|markers| - 1)
    else Find(markers[..|markers| - 1], name)
  }

  function Save<D>(s: Session<D>, name: string): Session<D> {
    s.(markers := s.markers + [Marker(name, s.state)])
  }

  /** RELEASE forgets the marker and all newer ones; it fails when there is none. */
  function Release<D>(s: Session<D>, name: string): Option<Session<D>> {
    match Find(s.markers, name)
    case None => None
    case Some(i) => Some(s.(markers := s.markers[..i]))
  }

  /** ROLLBACK TO restores the marker's data and forgets all newer markers, but keeps it. */
  function RollbackTo<D>(s: Session<D>, name: string): Option<Session<D>> {
    match Find(s.markers, name)
    case None => None
    case Some(i) => Some(Session(s.markers[i].saved, s.markers[..i + 1]))
  }

  // ----------------------------------------------------- the commands issued

  /** Where a session stands, and whether an error is on its way. */
  datatype Progress<D> = Progress(session: Session<D>, threw: bool)

  /** The catch block of a savepoint; a failing rollback throws as well. */
  ghost function Recover<D>(s: Session<D>, name: string): Progress<D> {
    match RollbackTo(s, name)
    case Some(r) => Progress(r, true)
    case None => Progress(s, true)
  }

  /** After the body of a savepoint. SQL Server has no release. */
  ghost function Leave<D>(dialect: Dialect, after: Progress<D>, name: string): Progress<D> {
    if after.threw then Recover(after.session, name)
    else if dialect == Mssql then after
    else
      match Release(after.session, name)
      case Some(s) => Progress(s, false)
      case None => Recover(after.session, name)
  }

  ghost function Exec<D>(dialect: Dialect, p: Program<D>, s: Session<D>): Progress<D>
    decreases p
  {
    match p
    case Write(effect) => Progress(s.(state := effect(s.state)), false)
    case Throw => Progress(s, true)
    case Seq(first, second) =>
      var one := Exec(dialect, first, s);
      if one.threw then one else Exec(dialect, second, one.session)
    case If(test, yes, no) => if test(s.state) then Exec(dialect, yes, s) else Exec(dialect, no, s)
    case Catch(body, handler) =>
      var one := Exec(dialect, body, s);
      if one.threw then Exec(dialect, handler, one.session) else one
    case Savepoint(name, body) => Leave(dialect, Exec(dialect, body, Save(s, name)), name)
  }

  /** What a transaction leaves committed over `d`. */
  ghost function ExecTransaction<D>(dialect: Dialect, p: Program<D>, d: D): Outcome<D> {
    var end := Exec(dialect, p, Session(d, []));
    if end.threw then Outcome(d, true) else Outcome(end.session.state, false)
  }

  // --------------------------------------------------------------- refinement

  /** The names a program saves under. */
  ghost function Names<D>(p: Program<D>): set<string> {
    match p
    case Write(_) => {}
    case Throw => {}
    case Seq(first, second) => Names(first) + Names(second)
    case If(_, yes, no) => Names(yes) + Names(no)
    case Catch(body, handler) => Names(body) + Names(handler)
    case Savepoint(name, body) => {name} + Names(body)
  }

  /** No savepoint reuses the name of one around it. Names may be used again side by side. */
  ghost predicate Distinct<D>(p: Program<D>) {
    match p
    case Write(_) => true
    case Throw => true
    case Seq(first, second) => Distinct(first) && Distinct(second)
    case If(_, yes, no) => Distinct(yes) && Distinct(no)
    case Catch(body, handler) => Distinct(body) && Distinct(handler)
    case Savepoint(name, body) => name !in Names(body) && Distinct(body)
  }

  ghost predicate NamedIn<D>(markers: seq<Marker<D>>, names: set<string>) {
    forall m | m in markers :: m.name in names
  }

  /** The session did what was meant: it shows the data meant, and the markers it found are still
      there, below left-over ones that bear names of the program. */
  ghost predicate Refines<D>(end: Progress<D>, meant: Outcome<D>, before: seq<Marker<D>>, names: set<string>) {
    && end.session.state == meant.state && end.threw == meant.threw
    && before <= end.session.markers && NamedIn(end.session.markers[|before|..], names)
  }

  lemma RefinesAfter<D>(mid: seq<Marker<D>>, one: set<string>, end: Progress<D>, meant: Outcome<D>, before: seq<Marker<D>>,
                        two: set<string>)
    requires before <= mid && NamedIn(mid[|before|..], one) && Refines(end, meant, mid, two)
    ensures Refines(end, meant, before, one + two)
  {
    var after := end.session.markers;
    assert after[|before|..] == mid[|before|..] + after[|mid|..];
  }

  /** The marker of the savepoint is the newest of its name, whatever its body left behind. */
  lemma FindOwn<D>(markers: seq<Marker<D>>, before: seq<Marker<D>>, own: Marker<D>, names: set<string>)
    requires before + [own] <= markers && NamedIn(markers[|before| + 1..], names) && own.name !in names
    ensures Find(markers, own.name) == Some(|before|)
    ensures markers[|before|] == own && markers[..|before|] == before && markers[..|before| + 1] == before + [own]
  {
    assert (before + [own])[|before|] == own;
    forall i | |before| < i < |markers|
      ensures markers[i].name != own.name
    {
      assert markers[i] == markers[|before| + 1..][i - |before| - 1];
    }
  }

  lemma LeaveRefines<D>(dialect: Dialect, after: Progress<D>, meant: Outcome<D>, s: Session<D>, name: string, names: set<string>)
    requires Refines(after, meant, s.markers + [Marker(name, s.state)], names) && name !in names
    ensures Refines(Leave(dialect, after, name), if meant.threw then Outcome(s.state, true) else meant,
                    s.markers, {name} + names)
  {
    var own := Marker(name, s.state);
    var markers := after.session.markers;
    FindOwn(markers, s.markers, own, names);
    assert markers[|s.markers|..] == [own] + markers[|s.markers| + 1..];
    assert (s.markers + [own])[|s.markers|..] == [own];
  }

  /** Every dialect's commands do what was meant, for every program whose nested names differ. */
  lemma {:induction false} ExecRefines<D>(dialect: Dialect, p: Program<D>, s: Session<D>)
    requires Distinct(p)
    ensures Refines(Exec(dialect, p, s), Meaning(p, s.state), s.markers, Names(p))
    decreases p
  {
    match p
    case Write(_) =>
    case Throw =>
    case Seq(first, second) =>
      var one := Exec(dialect, first, s);
      ExecRefines(dialect, first, s);
      if !one.threw {
        ExecRefines(dialect, second, one.session);
        RefinesAfter(one.session.markers, Names(first), Exec(dialect, second, one.session),
                     Meaning(second, one.session.state), s.markers, Names(second));
      }
    case If(test, yes, no) =>
      if test(s.state) {
        ExecRefines(dialect, yes, s);
      } else {
        ExecRefines(dialect, no, s);
      }
    case Catch(body, handler) =>
      var one := Exec(dialect, body, s);
      ExecRefines(dialect, body, s);
      if one.threw {
        ExecRefines(dialect, handler, one.session);
        RefinesAfter(one.session.markers, Names(body), Exec(dialect, handler, one.session),
                     Meaning(handler, one.session.state), s.markers, Names(handler));
      }
    case Savepoint(name, body) =>
      ExecRefines(dialect, body, Save(s, name));
      LeaveRefines(dialect, Exec(dialect, body, Save(s, name)), Meaning(body, s.state), s, name, Names(body));
  }

  /** So a transaction commits exactly what was meant, in every dialect. */
  lemma TransactionRefines<D>(dialect: Dialect, p: Program<D>, d: D)
    requires Distinct(p)
    ensures ExecTransaction(dialect, p, d) == TransactionMeaning(p, d)
  {
    ExecRefines(dialect, p, Session(d, []));
  }

  lemma {:induction false} FindAbove<D>(markers: seq<Marker<D>>, before: seq<Marker<D>>, own: Marker<D>)
    requires before + [own] <= markers
    ensures Find(markers, own.name).Some? && Find(markers, own.name).value >= |before|
  {
    assert markers[|before|] == (before + [own])[|before|] == own;
  }

  /** Whatever names are used, a program leaves the markers it found, so a savepoint always finds a
      marker of its name, to release or to roll back to: the commands never fail for lack of one. */
  lemma {:induction false} MarkersKept<D>(dialect: Dialect, p: Program<D>, s: Session<D>)
    ensures s.markers <= Exec(dialect, p, s).session.markers
    decreases p, 0
  {
    match p
    case Write(_) =>
    case Throw =>
    case Seq(first, second) =>
      MarkersKept(dialect, first, s);
      MarkersKept(dialect, second, Exec(dialect, first, s).session);
    case If(test, yes, no) =>
      MarkersKept(dialect, yes, s);
      MarkersKept(dialect, no, s);
    case Catch(body, handler) =>
      MarkersKept(dialect, body, s);
      MarkersKept(dialect, handler, Exec(dialect, body, s).session);
    case Savepoint(name, body) =>
      MarkerFound(dialect, name, body, s);
  }

  lemma {:induction false} MarkerFound<D>(dialect: Dialect, name: string, body: Program<D>, s: Session<D>)
    ensures var after := Exec(dialect, body, Save(s, name)).session;
            Release(after, name).Some? && RollbackTo(after, name).Some?
    ensures s.markers <= Exec(dialect, Savepoint(name, body), s).session.markers
    decreases body, 1
  {
    var after := Exec(dialect, body, Save(s, name)).session;
    MarkersKept(dialect, body, Save(s, name));
    FindAbove(after.markers, s.markers, Marker(name, s.state));
    var i := Find(after.markers, name).value;
    assert s.markers <= after.markers[..i] && s.markers <= after.markers[..i + 1];
  }

  // ------------------------------------------------------------- reused names

  function Skip<D>(): Program<D> {
    Write(d => d)
  }

  /** An outer savepoint that fails after an inner one, everything caught in the end. */
  function Nested<D>(outer: string, pre: Program<D>, inner: Program<D>): Program<D> {
    Catch(Savepoint(outer, Seq(pre, Seq(inner, Throw))), Skip())
  }

  /** A savepoint that fails restores its data and leaves its own marker on top. */
  lemma FailedLeavesMarker<D>(dialect: Dialect, body: Program<D>, s: Session<D>, name: string)
    requires Distinct(body) && name !in Names(body) && Meaning(body, s.state).threw
    ensures Exec(dialect, Savepoint(name, body), s) == Progress(Save(s, name), true)
  {
    ExecRefines(dialect, body, Save(s, name));
    FindOwn(Exec(dialect, body, Save(s, name)).session.markers, s.markers, Marker(name, s.state), Names(body));
  }

  /** One that succeeds is released; SQL Server leaves its marker where a rollback finds it. */
  lemma SucceededLeaves<D>(dialect: Dialect, body: Program<D>, s: Session<D>, name: string)
    requires Distinct(body) && name !in Names(body) && !Meaning(body, s.state).threw
    ensures var end := Exec(dialect, Savepoint(name, body), s);
            && end.session.state == Meaning(body, s.state).state && !end.threw
            && (dialect != Mssql ==> end.session.markers == s.markers)
            && (dialect == Mssql ==> RollbackTo(end.session, name) == Some(Save(s, name)))
  {
    ExecRefines(dialect, body, Save(s, name));
    FindOwn(Exec(dialect, body, Save(s, name)).session.markers, s.markers, Marker(name, s.state), Names(body));
  }

  lemma RollbackToTop<D>(s: Session<D>, name: string)
    ensures RollbackTo(Save(s, name), name) == Some(Save(s, name))
  {
    var markers := Save(s, name).markers;
    assert markers[..|markers|] == markers;
  }

  lemma NestedDistinct<D>(outer: string, pre: Program<D>, inner: Program<D>)
    requires Distinct(pre) && Distinct(inner) && outer !in Names(pre) + Names(inner)
    ensures Distinct(Nested(outer, pre, inner))
  {
    var tail := Seq(inner, Throw);
    assert Distinct(tail) && outer !in Names(tail);
    var body := Seq(pre, tail);
    assert Distinct(body) && outer !in Names(body);
    assert Distinct(Savepoint(outer, body)) && Distinct(Skip<D>());
  }

  lemma CaughtDistinct<D>(name: string, body: Program<D>)
    requires Distinct(body) && name !in Names(body)
    ensures Distinct(Catch(Savepoint(name, body), Skip()))
    ensures Names(Catch(Savepoint(name, body), Skip())) == {name} + Names(body)
  {
    assert Distinct(Skip<D>()) && Names(Skip<D>()) == {};
    assert Names(Savepoint(name, body)) == {name} + Names(body);
  }

  /** A nested program ends well with its data as before. */
  lemma NestedMeaning<D>(outer: string, pre: Program<D>, inner: Program<D>, d: D)
    requires !Meaning(pre, d).threw && !Meaning(inner, Meaning(pre, d).state).threw
    ensures TransactionMeaning(Nested(outer, pre, inner), d) == Outcome(d, false)
  {
    assert Meaning(Seq(inner, Throw), Meaning(pre, d).state).threw;
    assert Meaning(Seq(pre, Seq(inner, Throw)), d).threw;
    assert Meaning(Savepoint(outer, Seq(pre, Seq(inner, Throw))), d) == Outcome(d, true);
    assert Meaning(Skip<D>(), d) == Outcome(d, false);
  }

  /** What a nested program commits is what the outer rollback finds after the inner program. */
  lemma NestedExec<D>(dialect: Dialect, outer: string, pre: Program<D>, inner: Program<D>, d: D, s: Session<D>, end: Session<D>)
    requires Exec(dialect, pre, Save(Session(d, []), outer)) == Progress(s, false)
    requires Exec(dialect, inner, s) == Progress(end, false) && RollbackTo(end, outer).Some?
    ensures ExecTransaction(dialect, Nested(outer, pre, inner), d) == Outcome(RollbackTo(end, outer).value.state, false)
  {
    var start := Session(d, []);
    var back := RollbackTo(end, outer).value;
    assert Exec(dialect, Seq(inner, Throw), s) == Progress(end, true);
    assert Exec(dialect, Seq(pre, Seq(inner, Throw)), Save(start, outer)) == Progress(end, true);
    assert Exec(dialect, Savepoint(outer, Seq(pre, Seq(inner, Throw))), start) == Progress(back, true);
    assert Exec(dialect, Skip(), back) == Progress(back, false);
  }

  /** With an inner savepoint that fails, the outer one undoes `pre` exactly when the two names
      differ, unless there was nothing to undo: in every dialect the inner marker stays behind. */
  lemma ReusedNameAfterFailure<D>(dialect: Dialect, outer: string, inner: string, pre: Program<D>, body: Program<D>, d: D)
    requires Distinct(pre) && Distinct(body) && outer !in Names(pre) + Names(body) && inner !in Names(body)
    requires !Meaning(pre, d).threw && Meaning(body, Meaning(pre, d).state).threw
    ensures var p := Nested(outer, pre, Catch(Savepoint(inner, body), Skip()));
            ExecTransaction(dialect, p, d) == TransactionMeaning(p, d) <==> (outer != inner || Meaning(pre, d).state == d)
  {
    var caught: Program<D> := Catch(Savepoint(inner, body), Skip());
    var s := Exec(dialect, pre, Save(Session(d, []), outer)).session;
    ExecRefines(dialect, pre, Save(Session(d, []), outer));
    assert Meaning(caught, Meaning(pre, d).state) == Outcome(Meaning(pre, d).state, false) by {
      assert Meaning(Skip<D>(), Meaning(pre, d).state) == Outcome(Meaning(pre, d).state, false);
    }
    NestedMeaning(outer, pre, caught, d);
    if outer != inner {
      CaughtDistinct(inner, body);
      NestedDistinct(outer, pre, caught);
      TransactionRefines(dialect, Nested(outer, pre, caught), d);
    } else {
      FailedLeavesMarker(dialect, body, s, inner);
      assert Exec(dialect, Skip(), Save(s, inner)) == Progress(Save(s, inner), false);
      RollbackToTop(s, outer);
      NestedExec(dialect, outer, pre, caught, d, s, Save(s, inner));
    }
  }

  /** With an inner savepoint that succeeds, only SQL Server, which does not release, is affected. */
  lemma ReusedNameAfterSuccess<D>(dialect: Dialect, outer: string, inner: string, pre: Program<D>, body: Program<D>, d: D)
    requires Distinct(pre) && Distinct(body) && outer !in Names(pre) + Names(body) && inner !in Names(body)
    requires !Meaning(pre, d).threw && !Meaning(body, Meaning(pre, d).state).threw
    ensures var p := Nested(outer, pre, Savepoint(inner, body));
            ExecTransaction(dialect, p, d) == TransactionMeaning(p, d) <==>
            (outer != inner || dialect != Mssql || Meaning(pre, d).state == d)
  {
    var saved: Program<D> := Savepoint(inner, body);
    var start := Session(d, []);
    var s := Exec(dialect, pre, Save(start, outer)).session;
    ExecRefines(dialect, pre, Save(start, outer));
    NestedMeaning(outer, pre, saved, d);
    if outer != inner {
      NestedDistinct(outer, pre, saved);
      TransactionRefines(dialect, Nested(outer, pre, saved), d);
    } else {
      SucceededLeaves(dialect, body, s, inner);
      var end := Exec(dialect, saved, s).session;
      if dialect != Mssql {
        FindOwn(end.markers, [], Marker(outer, d), Names(pre));
      }
      NestedExec(dialect, outer, pre, saved, d, s, end);
    }
  }

  function Increment(): int -> int { n => n + 1 }

  /** A lost undo: `a` writes, an inner savepoint that is called `a` too fails and is caught, then
      `a` itself fails. Nothing was meant to stay, but in every dialect the write does. */
  lemma LostUndo(dialect: Dialect)
    ensures var p := Nested("a", Write(Increment()), Catch(Savepoint("a", Throw), Skip()));
            && TransactionMeaning(p, 0) == Outcome(0, false)
            && ExecTransaction(dialect, p, 0) == Outcome(1, false)
  {
    var pre, caught: Program<int> := Write(Increment()), Catch(Savepoint("a", Throw), Skip());
    var start := Save(Session(0, []), "a");
    var s := Session(1, start.markers);
    assert Meaning(pre, 0) == Outcome(1, false) && Meaning(Skip(), 1) == Outcome(1, false);
    var inner: Program<int> := Savepoint("a", Throw);
    assert Meaning(inner, 1) == Outcome(1, true);
    assert Meaning(caught, 1) == Outcome(1, false);
    NestedMeaning("a", pre, caught, 0);
    assert Exec(dialect, pre, start) == Progress(s, false);
    FailedLeavesMarker(dialect, Throw, s, "a");
    assert Exec(dialect, Skip(), Save(s, "a")) == Progress(Save(s, "a"), false);
    RollbackToTop(s, "a");
    NestedExec(dialect, "a", pre, caught, 0, s, Save(s, "a"));
  }
}
