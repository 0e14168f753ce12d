/** The transaction and savepoint functions of the database plugins, issuing their commands one
    by one against a connection. Each is proved to do what `Savepoints` says of its commands. */
module Transactions {

  import opened Wrappers
  import opened Savepoints

  /** How the database takes the COMMIT or ROLLBACK at the end: a refused one has no effect, and the
      database either ends the transaction with it or leaves it open. */
  datatype Closing = Done | Refused(leftOpen: bool)

  /** What goes wrong around a callback. */
  datatype Faults = Faults(connect: bool, begin: bool, closing: Closing)

  /** One database as seen through one connection. */
  class Connection<D> {
    const dialect: Dialect
    var committed: D
    var session: Option<Session<D>>
    /** Clients taken from the pool and not yet given back. Only Postgres leases one. */
    var leased: nat

    constructor (dialect: Dialect, start: D)
      ensures this.dialect == dialect && committed == start && session == None && leased == 0
    {
      this.dialect, committed, session, leased := dialect, start, None, 0;
    }

    method Begin(fails: bool)
      requires session.None?
      modifies `session
      ensures session == if fails then None else Some(Session(committed, []))
    {
      if !fails {
        session := Some(Session(committed, []));
      }
    }

    method Commit(closing: Closing)
      requires session.Some?
      modifies `session, `committed
      ensures committed == if closing.Done? then old(session).value.state else old(committed)
      ensures session == if closing == Refused(true) then old(session) else None
    {
      if closing.Done? {
        committed := session.value.state;
      }
      if closing != Refused(true) {
        session := None;
      }
    }

    method Rollback(closing: Closing)
      requires session.Some?
      modifies `session
      ensures session == if closing == Refused(true) then old(session) else None
    {
      if closing != Refused(true) {
        session := None;
      }
    }

    method SaveMarker(name: string)
      requires session.Some?
      modifies `session
      ensures session == Some(Save(old(session).value, name))
    {
      session := Some(Save(session.value, name));
    }

    /** Fails, as an error from the database, when there is no such marker. */
    method ReleaseMarker(name: string) returns (failed: bool)
      requires session.Some?
      modifies `session
      ensures failed <==> Release(old(session).value, name).None?
      ensures session == if failed then old(session) else Release(old(session).value, name)
    {
      var after := Release(session.value, name);
      failed := after.None?;
      if !failed {
        session := after;
      }
    }

    method RollbackToMarker(name: string) returns (failed: bool)
      requires session.Some?
      modifies `session
      ensures failed <==> RollbackTo(old(session).value, name).None?
      ensures session == if failed then old(session) else RollbackTo(old(session).value, name)
    {
      var after := RollbackTo(session.value, name);
      failed := after.None?;
      if !failed {
        session := after;
      }
    }

    /** Runs a callback. Errors travel as the flag `threw`. */
    method Run(p: Program<D>) returns (threw: bool)
      requires session.Some?
      modifies `session
      ensures session.Some? && Progress(session.value, threw) == Exec(dialect, p, old(session).value)
      decreases p, 0
    {
      match p
      case Write(effect) =>
        session := Some(session.value.(state := effect(session.value.state)));
        threw := false;
      case Throw =>
        threw := true;
      case Seq(first, second) =>
        threw := Run(first);
        if !threw {
          threw := Run(second);
        }
      case If(test, yes, no) =>
        if test(session.value.state) {
          threw := Run(yes);
        } else {
          threw := Run(no);
        }
      case Catch(body, handler) =>
        threw := Run(body);
        if threw {
          threw := Run(handler);
        }
      case Savepoint(name, body) =>
        threw := RunSavepoint(name, body);
    }

    /** The plugins' `savepoint`: a release inside the `try`, a rollback to the marker in the `catch`. */
    method RunSavepoint(name: string, callback: Program<D>) returns (threw: bool)
      requires session.Some?
      modifies `session
      ensures session.Some?
      ensures Progress(session.value, threw) == Leave(dialect, Exec(dialect, callback, Save(old(session).value, name)), name)
      ensures Distinct(callback) && name !in Names(callback) ==>
                var meant := Meaning(callback, old(session).value.state);
                threw == meant.threw && session.value.state == if threw then old(session).value.state else meant.state
      decreases callback, 1
    {
      ghost var before := session.value;
      SaveMarker(name);
      threw := Run(callback);
      if !threw && dialect != Mssql {
        threw := ReleaseMarker(name);
      }
      if threw {
        var _ := RollbackToMarker(name);
      }
      if Distinct(callback) && name !in Names(callback) {
        ExecRefines(dialect, Savepoint(name, callback), before);
      }
    }

    /** The plugins' `transaction`: all of the callback's effect, or none of it, whatever else goes
        wrong; and a client that was leased is given back. A COMMIT or ROLLBACK that is refused is
        not followed by anything, so the connection goes back as the refusal left it. */
    method Transaction(callback: Program<D>, faults: Faults) returns (threw: bool)
      requires session.None?
      modifies `session, `committed, `leased
      ensures leased == old(leased)
      ensures var started := !faults.begin && !(dialect == Postgres && faults.connect);
              var end := ExecTransaction(dialect, callback, old(committed));
              && (threw <==> !started || end.threw || faults.closing.Refused?)
              && committed == (if threw then old(committed) else end.state)
              && (session.Some? <==> started && faults.closing == Refused(true))
      ensures Distinct(callback) && !threw ==>
                Outcome(committed, false) == TransactionMeaning(callback, old(committed))
      ensures Distinct(callback) && !faults.begin && !faults.connect && faults.closing.Done? ==>
                Outcome(committed, threw) == TransactionMeaning(callback, old(committed))
    {
      ghost var before := committed;
      if Distinct(callback) {
        TransactionRefines(dialect, callback, before);
      }
      if dialect == Postgres {
        if faults.connect {
          return true;
        }
        leased := leased + 1;
      }
      threw := RunTransaction(callback, faults.begin, faults.closing);
      if dialect == Postgres {
        leased := leased - 1;
      }
    }

    /** The commands from BEGIN to COMMIT or ROLLBACK. */
    method RunTransaction(callback: Program<D>, beginFails: bool, closing: Closing) returns (threw: bool)
      requires session.None?
      modifies `session, `committed
      ensures var end := ExecTransaction(dialect, callback, old(committed));
              && (threw <==> beginFails || end.threw || closing.Refused?)
              && committed == (if threw then old(committed) else end.state)
              && (session.Some? <==> !beginFails && closing == Refused(true))
    {
      Begin(beginFails);
      if beginFails {
        return true;
      }
      threw := Run(callback);
      if threw {
        Rollback(closing);
      } else {
        Commit(closing);
        threw := closing.Refused?;
      }
    }
  }
}
