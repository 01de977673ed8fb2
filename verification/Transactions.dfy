/** The database connection, the transaction object and its two wrappers. */
module Transactions {
  import opened Wrappers

  /** What a callback did: the tables it leaves, the queries it made, and how it ended, with
      what it captured besides. */
  datatype Ending = Returned(ok: bool) | Threw

  datatype Run<T, X> = Run(tables: T, calls: nat, ending: Ending, extra: X)

  datatype TransactionState = NoStart | Start | Commit

  /** The connection. `answers(n)` is whether the n-th request to the server succeeds. What a
      transaction wrote becomes visible by a successful commit; a failed commit and any
      rollback leave the tables as they were. */
  class Database<T> {
    const connected: bool
    const answers: nat -> bool
    var committed: T
    var working: T
    var calls: nat
    var locks: int               // how often the database lock is held

    constructor (connected: bool, answers: nat -> bool, tables: T)
      ensures this.connected == connected && this.answers == answers
      ensures committed == working == tables && calls == 0 && locks == 0
    {
      this.connected, this.answers := connected, answers;
      committed, working, calls, locks := tables, tables, 0, 0;
    }

    method BeginTransaction() returns (ok: bool)
      requires working == committed
      modifies this
      ensures ok == (connected && answers(old(calls)))
      ensures locks == old(locks) + (if ok then 1 else 0)
      ensures committed == working == old(committed)
      ensures calls == old(calls) + (if connected then 1 else 0)
    {
      if !connected {
        return false;
      }
      ok := answers(calls);
      calls := calls + 1;
      if ok {
        locks := locks + 1;
      }
    }

    method RollbackTransaction() returns (ok: bool)
      modifies this
      ensures locks == old(locks) - (if connected then 1 else 0)
      ensures committed == old(committed) && (connected ==> working == committed)
    {
      if !connected {
        return false;
      }
      ok := answers(calls);
      calls := calls + 1;
      working := committed;
      locks := locks - 1;
    }

    method CommitTransaction() returns (ok: bool)
      modifies this
      ensures ok == (connected && answers(old(calls)))
      ensures locks == old(locks) - (if connected then 1 else 0)
      ensures committed == if ok then old(working) else old(committed)
      ensures connected ==> working == committed
    {
      if !connected {
        return false;
      }
      ok := answers(calls);
      calls := calls + 1;
      if ok {
        committed := working;
      } else {
        working := committed;
      }
      locks := locks - 1;
    }
  }

  /** What a wrapper leaves behind: the tables, whether it reports success, and what the
      callback captured if it ran at all. */
  datatype Result<T, X> = Result(tables: T, ok: bool, extra: Option<X>)

  /** `executeWithinTransactionRollbackOnFailure`, for a database that answers as given. */
  function RollbackOnFailure<T, X>(
      connected: bool, answers: nat -> bool, tables: T, calls: nat, callback: (T, nat) -> Run<T, X>): Result<T, X>
  {
    if !(connected && answers(calls)) then Result(tables, false, None)
    else
      var r := callback(tables, calls + 1);
      if r.ending == Returned(true) && answers(r.calls) then Result(r.tables, true, Some(r.extra))
      else Result(tables, false, Some(r.extra))
  }

  /** `executeWithinTransaction`: a callback that returns false is committed all the same. */
  function CommitAlways<T, X>(
      connected: bool, answers: nat -> bool, tables: T, calls: nat, callback: (T, nat) -> Run<T, X>): Result<T, X>
  {
    if !(connected && answers(calls)) then Result(tables, false, None)
    else
      var r := callback(tables, calls + 1);
      if r.ending.Returned? && answers(r.calls) then Result(r.tables, r.ending.ok, Some(r.extra))
      else Result(tables, false, Some(r.extra))
  }

  /** A reported failure of `executeWithinTransaction` leaves the tables as they were, unless
      the transaction begun, the callback changed them and returned false, and the commit went
      through: for every callback, if and only if. */
  lemma CommitAtomicIff<T, X>(
      connected: bool, answers: nat -> bool, tables: T, calls: nat, callback: (T, nat) -> Run<T, X>)
    ensures
      var r := CommitAlways(connected, answers, tables, calls, callback);
      var run := callback(tables, calls + 1);
      (!r.ok ==> r.tables == tables) <==>
        !(connected && answers(calls) && run.ending == Returned(false) && run.tables != tables && answers(run.calls))
  {
    assert callback(tables, calls + 1).ending.Returned? || callback(tables, calls + 1).ending == Threw;
  }

  /** `executeWithinTransactionRollbackOnFailure` always does, and where the callback does not
      return false both wrappers agree. */
  lemma RollbackIsAtomic<T, X>(
      connected: bool, answers: nat -> bool, tables: T, calls: nat, callback: (T, nat) -> Run<T, X>)
    ensures
      var r := RollbackOnFailure(connected, answers, tables, calls, callback);
      !r.ok ==> r.tables == tables
    ensures callback(tables, calls + 1).ending != Returned(false) ==>
      RollbackOnFailure(connected, answers, tables, calls, callback) ==
      CommitAlways(connected, answers, tables, calls, callback)
  {
    var ending := callback(tables, calls + 1).ending;
    assert ending == Threw || ending == Returned(ending.ok);
  }

  class DBTransaction<T> {
    var state: TransactionState
    const db: Database<T>

    constructor (db: Database<T>)
      ensures this.db == db && state == NoStart
    {
      this.db, state := db, NoStart;
    }

    method Begin() returns (ok: bool)
      requires state == NoStart && db.working == db.committed
      modifies this, db
      ensures ok == (db.connected && db.answers(old(db.calls))) && state == Start
      ensures db.locks == old(db.locks) + (if ok then 1 else 0)
      ensures db.committed == db.working == old(db.committed)
      ensures ok ==> db.calls == old(db.calls) + 1
    {
      if state != NoStart {
        return false;
      }
      state := Start;
      ok := db.BeginTransaction();
    }

    method Rollback()
      modifies this, db
      ensures old(state) == Start ==>
        && state == NoStart && db.locks == old(db.locks) - (if db.connected then 1 else 0)
        && db.committed == old(db.committed) && (db.connected ==> db.working == db.committed)
      ensures old(state) != Start ==> unchanged(this) && unchanged(db)
    {
      if state != Start {
        return;
      }
      state := NoStart;
      var ok := db.RollbackTransaction();
    }

    method CommitChanges() returns (ok: bool)
      modifies this, db
      ensures old(state) == Start ==>
        && ok == (db.connected && db.answers(old(db.calls)))
        && state == (if ok then Commit else NoStart)
        && db.locks == old(db.locks) - (if db.connected then 1 else 0)
        && db.committed == (if ok then old(db.working) else old(db.committed))
        && (db.connected ==> db.working == db.committed)
      ensures old(state) != Start ==> !ok && unchanged(this) && unchanged(db)
    {
      if state != Start {
        return false;
      }
      state := Commit;
      ok := db.CommitTransaction();
      if !ok {
        state := NoStart;
      }
    }
  }

  /** The callback's queries run on the open transaction. */
  method CallBack<T, X>(db: Database<T>, callback: (T, nat) -> Run<T, X>) returns (ending: Ending, extra: X)
    modifies db`working, db`calls
    ensures
      var r := callback(old(db.working), old(db.calls));
      db.working == r.tables && db.calls == r.calls && ending == r.ending && extra == r.extra
  {
    var r := callback(db.working, db.calls);
    db.working, db.calls := r.tables, r.calls;
    return r.ending, r.extra;
  }

  /** Both wrappers give the lock back exactly as often as they take it, whatever fails. */
  method ExecuteRollbackOnFailure<T, X>(db: Database<T>, callback: (T, nat) -> Run<T, X>)
    returns (ok: bool, extra: Option<X>)
    requires db.working == db.committed
    modifies db
    ensures Result(db.committed, ok, extra) ==
      RollbackOnFailure(db.connected, db.answers, old(db.committed), old(db.calls), callback)
    ensures db.locks == old(db.locks)
    ensures db.working == db.committed
  {
    var transaction := new DBTransaction(db);
    var begun := transaction.Begin();
    if !begun {
      return false, None;
    }
    var ending, x := CallBack(db, callback);
    extra := Some(x);
    if ending == Threw {
      transaction.Rollback();
      return false, extra;
    }
    if !ending.ok {
      transaction.Rollback();
      return false, extra;
    }
    ok := transaction.CommitChanges();
  }

  method ExecuteWithinTransaction<T, X>(db: Database<T>, callback: (T, nat) -> Run<T, X>)
    returns (ok: bool, extra: Option<X>)
    requires db.working == db.committed
    modifies db
    ensures Result(db.committed, ok, extra) ==
      CommitAlways(db.connected, db.answers, old(db.committed), old(db.calls), callback)
    ensures db.locks == old(db.locks)
    ensures db.working == db.committed
  {
    var transaction := new DBTransaction(db);
    var begun := transaction.Begin();
    if !begun {
      return false, None;
    }
    var ending, x := CallBack(db, callback);
    extra := Some(x);
    if ending == Threw {
      transaction.Rollback();
      return false, extra;
    }
    var committed := transaction.CommitChanges();
    if !committed {
      return false, extra;
    }
    return ending.ok, extra;
  }
}
