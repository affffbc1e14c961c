/** The first PostgreSQL backend (`storage/dbstorage.go`): the tables `gauges` and
    `counters` as two maps, every write retried by its own `withDBRetry` loop. */
module LegacyDbStorage {
  import opened Wrappers
  import opened Models
  import opened Store
  import opened Strings
  import opened DbErrors
  import opened SqlTables
  import Retry

  /** `withDBRetry`: the loop of the generic retry engine, statement for statement (the
      same delay table, early returns and sleeps), with `isRetriableDBError` built in as
      its classifier. `op(k)` is the error of the (k+1)-th call. */
  method WithDBRetry(op: nat -> Option<DbError>) returns (err: Option<DbError>, attempts: nat, ghost waited: nat)
    ensures Retry.RetryRun(err, attempts, waited) == Retry.Run(op, IsRetriableDBError)
    ensures 1 <= attempts <= Retry.MaxAttempts
  {
    err, attempts, waited := Retry.WithRetry(op, IsRetriableDBError);
  }

  /** The three cases of the loop's test table, with a connection failure (08006) as the
      retriable error and a plain error as the other. */
  lemma WithDBRetryTestTable()
    ensures Retry.Run((k: nat) => if k < 1 then Some(OtherError("non-retriable error")) else None, IsRetriableDBError)
      == Retry.RetryRun(Some(OtherError("non-retriable error")), 1, 0)
    ensures Retry.Run((k: nat) => if k < 2 then Some(PgError(ConnectionFailure)) else None, IsRetriableDBError)
      == Retry.RetryRun(None, 3, 1)
    ensures Retry.Run((k: nat) => if k < 5 then Some(PgError(ConnectionFailure)) else None, IsRetriableDBError)
      == Retry.RetryRun(Some(PgError(ConnectionFailure)), 4, 9)
  {
    var nonRetriable := (k: nat) => if k < 1 then Some(OtherError("non-retriable error")) else None;
    Retry.NonRetriableStops(nonRetriable, IsRetriableDBError, 0);
    var twice := (k: nat) => if k < 2 then Some(PgError(ConnectionFailure)) else None;
    Retry.TwoRetriableFailuresThenSuccess(twice, IsRetriableDBError);
    var always := (k: nat) => if k < 5 then Some(PgError(ConnectionFailure)) else None;
    Retry.ExhaustedReturnsLastError(always, IsRetriableDBError);
  }

  /** The conflict clause `SET delta = counters.delta` of `UpdateCounter`: a new name is
      inserted, an existing row keeps its total. */
  function UpsertCounterKeepExisting(counters: map<string, int64>, name: string, value: int64): (r: map<string, int64>)
    ensures name in r && r.Keys == counters.Keys + {name}
    ensures name !in counters ==> r[name] == value
    ensures name in counters ==> r == counters
  {
    if name in counters then counters else counters[name := value]
  }

  /** The value given to `UpdateCounter` is lost for an existing counter, so the service's
      read-then-write accumulation (stored total 1, delta 4, new total 5) is dropped. */
  lemma KeepExistingLosesUpdate()
    ensures UpsertCounterKeepExisting(map["c" := 1], "c", 5)["c"] == 1
  {
  }

  class LegacyDbStorageData {
    var gauges: map<string, real>
    var counters: map<string, int64>

    function State(): Store
      reads this
    {
      Store(gauges, counters)
    }

    /** `NewPostgresStorage`: `CREATE TABLE IF NOT EXISTS` keeps whatever rows exist. */
    constructor (existing: Store)
      ensures State() == existing
    {
      gauges := existing.gauges;
      counters := existing.counters;
    }

    /** `UpdateGauge`: the upsert, retried; the final error is dropped. */
    method UpdateGauge(name: string, value: real, faults: nat -> Option<DbError>)
      modifies this
      ensures Retry.Run(faults, IsRetriableDBError).err.None? ==> gauges == old(gauges)[name := value]
      ensures Retry.Run(faults, IsRetriableDBError).err.Some? ==> gauges == old(gauges)
      ensures counters == old(counters)
    {
      var err, attempts, waited := WithDBRetry(faults);
      if err.None? {
        gauges := gauges[name := value];
      }
    }

    /** `UpdateCounter` as written: only ever inserts; an existing total is left unchanged. */
    method UpdateCounter(name: string, value: int64, faults: nat -> Option<DbError>)
      modifies this
      ensures Retry.Run(faults, IsRetriableDBError).err.None? ==>
        counters == UpsertCounterKeepExisting(old(counters), name, value)
      ensures Retry.Run(faults, IsRetriableDBError).err.Some? ==> counters == old(counters)
      ensures gauges == old(gauges)
    {
      var err, attempts, waited := WithDBRetry(faults);
      if err.None? {
        counters := UpsertCounterKeepExisting(counters, name, value);
      }
    }

    /** `GetGauge`: (stored, true), or (0, false) when the row is absent or the query fails. */
    function GetGauge(name: string, queryFails: bool): (r: (real, bool))
      reads this
      ensures r.1 <==> !queryFails && name in gauges
      ensures r.1 ==> r.0 == gauges[name]
      ensures !r.1 ==> r.0 == 0.0
    {
      if queryFails || name !in gauges then (0.0, false) else (gauges[name], true)
    }

    /** `GetCounter`: (stored, true), or (0, false) when the row is absent or the query fails. */
    function GetCounter(name: string, queryFails: bool): (r: (int64, bool))
      reads this
      ensures r.1 <==> !queryFails && name in counters
      ensures r.1 ==> r.0 == counters[name]
      ensures !r.1 ==> r.0 == 0
    {
      if queryFails || name !in counters then (0, false) else (counters[name], true)
    }

    /** `GetKeyGauge`: every row id once, or nil when the query, a scan or the row
        iteration fails. */
    method GetKeyGauge(fault: Option<DbError>) returns (keys: seq<string>)
      ensures fault.Some? ==> keys == []
      ensures fault.None? ==> (set k | k in keys) == gauges.Keys && NoDuplicates(keys) && |keys| == |gauges|
    {
      if fault.Some? {
        return [];
      }
      keys := MapKeys(gauges);
    }

    /** `GetKeyCounter`: every row id once, or nil on failure. */
    method GetKeyCounter(fault: Option<DbError>) returns (keys: seq<string>)
      ensures fault.Some? ==> keys == []
      ensures fault.None? ==> (set k | k in keys) == counters.Keys && NoDuplicates(keys) && |keys| == |counters|
    {
      if fault.Some? {
        return [];
      }
      keys := MapKeys(counters);
    }

    /** `BatchUpdate`: the transaction handed to `withDBRetry`. Unless a commit
        acknowledgement was lost, either the attempt that ends the run commits the batch
        once with the SQL semantics (gauges replace, counters add), or the run fails and
        nothing changes. */
    method BatchUpdate(ms: seq<Metrics>, faults: nat -> TxFault) returns (err: Option<DbError>)
      modifies this
      ensures var run := Retry.Run(TxAttempts(old(State()), ms, faults), IsRetriableDBError);
        err == run.err && State() == TablesBefore(old(State()), ms, faults, run.attempts)
      ensures NoAckLost(faults, Retry.MaxAttempts) && err.None? ==> ApplyBatchAdd(old(State()), ms) == Some(State())
      ensures NoAckLost(faults, Retry.MaxAttempts) && err.Some? ==> State() == old(State())
    {
      var s0 := State();
      var attempts: nat;
      ghost var waited: nat;
      err, attempts, waited := WithDBRetry(TxAttempts(s0, ms, faults));
      RetriedRunTables(s0, ms, faults, IsRetriableDBError, Retry.RetryRun(err, attempts, waited));
      var t := TablesBefore(s0, ms, faults, attempts);
      gauges, counters := t.gauges, t.counters;
    }
  }
}
