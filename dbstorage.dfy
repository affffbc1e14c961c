/** The current PostgreSQL backend (`internal/storage/dbstorage.go`): the same two tables,
    writes retried through the generic retry engine with `isRetriableDBError`. */
module DbStorage {
  import opened Wrappers
  import opened Models
  import opened Store
  import opened Strings
  import opened DbErrors
  import opened SqlTables
  import Retry

  class DbStorageData {
    var gauges: map<string, real>
    var counters: map<string, int64>

    function State(): Store
      reads this
    {
      Store(gauges, counters)
    }

    /** `NewPostgresStorage`: `CREATE TABLE IF NOT EXISTS` keeps whatever rows exist. */
    constructor (existing: Store)
      ensures State() == existing
    {
      gauges := existing.gauges;
      counters := existing.counters;
    }

    /** `UpdateGauge`: the upsert `SET value = $2`, retried; the final error is dropped. */
    method UpdateGauge(name: string, value: real, faults: nat -> Option<DbError>)
      modifies this
      ensures Retry.Run(faults, IsRetriableDBError).err.None? ==> gauges == old(gauges)[name := value]
      ensures Retry.Run(faults, IsRetriableDBError).err.Some? ==> gauges == old(gauges)
      ensures counters == old(counters)
    {
      var err, attempts, waited := Retry.WithRetry(faults, IsRetriableDBError);
      if err.None? {
        gauges := gauges[name := value];
      }
    }

    /** `UpdateCounter`: the upsert `SET delta = $2` replaces the stored total. */
    method UpdateCounter(name: string, value: int64, faults: nat -> Option<DbError>)
      modifies this
      ensures Retry.Run(faults, IsRetriableDBError).err.None? ==>
        GetCounter(name, false) == (value, true) && counters == old(counters)[name := value]
      ensures Retry.Run(faults, IsRetriableDBError).err.Some? ==> counters == old(counters)
      ensures gauges == old(gauges)
    {
      var err, attempts, waited := Retry.WithRetry(faults, IsRetriableDBError);
      if err.None? {
        counters := counters[name := value];
      }
    }

    /** `GetGauge`: (stored, true), or (0, false) when the row is absent or the query fails. */
    function GetGauge(name: string, queryFails: bool): (r: (real, bool))
      reads this
      ensures r.1 <==> !queryFails && name in gauges
      ensures r.1 ==> r.0 == gauges[name]
      ensures !r.1 ==> r.0 == 0.0
    {
      if queryFails || name !in gauges then (0.0, false) else (gauges[name], true)
    }

    /** `GetCounter`: (stored, true), or (0, false) when the row is absent or the query fails. */
    function GetCounter(name: string, queryFails: bool): (r: (int64, bool))
      reads this
      ensures r.1 <==> !queryFails && name in counters
      ensures r.1 ==> r.0 == counters[name]
      ensures !r.1 ==> r.0 == 0
    {
      if queryFails || name !in counters then (0, false) else (counters[name], true)
    }

    /** `GetKeyGauge`: every row id once, or (nil, err) with no partial list. */
    method GetKeyGauge(fault: Option<DbError>) returns (keys: seq<string>, err: Option<DbError>)
      ensures err == fault
      ensures err.Some? ==> keys == []
      ensures err.None? ==> (set k | k in keys) == gauges.Keys && NoDuplicates(keys) && |keys| == |gauges|
    {
      if fault.Some? {
        return [], fault;
      }
      keys := MapKeys(gauges);
      err := None;
    }

    /** `GetKeyCounter`: every row id once, or (nil, err) with no partial list. */
    method GetKeyCounter(fault: Option<DbError>) returns (keys: seq<string>, err: Option<DbError>)
      ensures err == fault
      ensures err.Some? ==> keys == []
      ensures err.None? ==> (set k | k in keys) == counters.Keys && NoDuplicates(keys) && |keys| == |counters|
    {
      if fault.Some? {
        return [], fault;
      }
      keys := MapKeys(counters);
      err := None;
    }

    /** `BatchUpdate`: the whole transaction retried by `retry.WithRetry`. Attempt k runs
        with fault `faults(k)` on the tables the earlier attempts left. Unless a commit
        acknowledgement was lost, the attempt that succeeds commits the batch once and a
        failed run changes nothing. */
    method BatchUpdate(ms: seq<Metrics>, faults: nat -> TxFault) returns (err: Option<DbError>)
      modifies this
      ensures var run := Retry.Run(TxAttempts(old(State()), ms, faults), IsRetriableDBError);
        err == run.err && State() == TablesBefore(old(State()), ms, faults, run.attempts)
      ensures NoAckLost(faults, Retry.MaxAttempts) && err.None? ==> ApplyBatchAdd(old(State()), ms) == Some(State())
      ensures NoAckLost(faults, Retry.MaxAttempts) && err.Some? ==> State() == old(State())
    {
      var s0 := State();
      var attempts: nat;
      ghost var waited: nat;
      err, attempts, waited := Retry.WithRetry(TxAttempts(s0, ms, faults), IsRetriableDBError);
      RetriedRunTables(s0, ms, faults, IsRetriableDBError, Retry.RetryRun(err, attempts, waited));
      Commit(TablesBefore(s0, ms, faults, attempts));
    }

    /** The commit of a successful transaction: both tables take the transaction's result. */
    method Commit(t: Store)
      modifies this
      ensures State() == t
    {
      gauges, counters := t.gauges, t.counters;
    }
  }
}
