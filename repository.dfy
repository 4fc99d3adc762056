/**
 * Repository: the plain query handle and the all-or-nothing unit of work.
 *
 * The database transaction is modelled by snapshot and restore: the
 * closure writes through the handle, and a rollback (an error from the
 * closure, or a failed commit) puts the snapshot back.
 */
module Repository {
  import opened Wrappers
  import opened Models
  import opened LedgerStore
  import opened WalletUnits

  /**
   * What WithTransaction returns and leaves behind: a failed begin stops
   * before the closure runs; the closure's own error is passed on
   * unchanged; a failed commit is reported after a successful closure.
   */
  function Transact(fn: UnitOfWork, s: StoreState, failing: set<Step>): UnitResult
  {
    if Begin in failing then Failed(Wrapped("failed to begin transaction", Outage))
    else
      match UnitSpec(fn, s, failing)
      case Failed(e) => Failed(e)
      case Done(after, b) =>
        if Commit in failing then Failed(Wrapped("failed to commit transaction", Outage))
        else Done(after, b)
  }

  class Repository {
    /** The handle Queries() returns: the same one every time, writing straight to the store. */
    const queries: Queries

    constructor (queries: Queries)
      ensures this.queries == queries
    {
      this.queries := queries;
    }

    function Queries(): Queries
    {
      queries
    }

    /**
     * Runs `fn` as one database transaction: on any error the store is as
     * it was before, and on success every write of `fn` persists.
     */
    method WithTransaction(fn: UnitOfWork, failing: set<Step>) returns (err: Option<Error>, balance: int)
      modifies queries
      ensures var res := Transact(fn, old(queries.State()), failing);
              && (res.Failed? ==> err == Some(res.cause) && queries.State() == old(queries.State()))
              && (res.Done? ==> err == None && queries.State() == res.after && balance == res.balance)
    {
      if Begin in failing {
        return Some(Wrapped("failed to begin transaction", Outage)), 0;
      }
      var snapshot := queries.State();   // what `defer tx.Rollback` returns to
      var tx := queries;                 // r.queries.WithTx(tx)
      err, balance := RunUnit(fn, tx, failing);
      if err.Some? {
        queries.Restore(snapshot);
        return err, balance;
      }
      if Commit in failing {
        queries.Restore(snapshot);
        return Some(Wrapped("failed to commit transaction", Outage)), balance;
      }
      return None, balance;
    }
  }
}
