/** `repository.MetricsRepo`, the storage contract the service is written against: both
    maps, lookups, name listings that can fail, and a batch write whose semantics depend on
    the backend behind it (in memory: replace; PostgreSQL: add, all or nothing). */
module Repository {
  import opened Wrappers
  import opened Models
  import opened Store
  import opened Strings
  import opened DbErrors

  /** A batch write through the contract. For the SQL backend `fault` is the error that
      ended the retried transaction, if any. */
  function BatchOutcome(s: Store, ms: seq<Metrics>, sqlBacked: bool, fault: Option<DbError>): (r: (Option<DbError>, Store))
    ensures r.0.Some? ==> r.1 == s
    ensures !sqlBacked ==> r == (None, ApplyBatchReplace(s, ms))
    ensures sqlBacked && r.0.None? ==> ApplyBatchAdd(s, ms) == Some(r.1)
    ensures sqlBacked && fault.Some? ==> r.0 == fault
  {
    if !sqlBacked then (None, ApplyBatchReplace(s, ms))
    else if fault.Some? then (fault, s)
    else match ApplyBatchAdd(s, ms)
      case None => (Some(PgError(NumericValueOutOfRange)), s)
      case Some(t) => (None, t)
  }

  /** The failures of the repository calls behind one single-metric update: the read of the
      current counter total fails (and reads as absent), the retried write still fails (and
      is logged and dropped). Only the SQL backend can fail. */
  datatype RepoFaults = RepoFaults(readFails: bool, writeFails: bool)

  const NoFaults := RepoFaults(false, false)

  class MetricsRepo {
    var gauges: map<string, real>
    var counters: map<string, int64>
    /** Whether a PostgreSQL backend stands behind the contract. */
    const sqlBacked: bool

    function State(): Store
      reads this
    {
      Store(gauges, counters)
    }

    constructor (existing: Store, sqlBacked: bool)
      ensures State() == existing && this.sqlBacked == sqlBacked
    {
      gauges := existing.gauges;
      counters := existing.counters;
      this.sqlBacked := sqlBacked;
    }

    /** The faults that take effect: none in memory. */
    function Effective(f: RepoFaults): (r: RepoFaults)
      ensures !sqlBacked ==> r == NoFaults
      ensures sqlBacked ==> r == f
    {
      if sqlBacked then f else NoFaults
    }

    /** Sets the gauge, unless the SQL write failed after its retries: then the error is
        only logged, and nothing changes. */
    method UpdateGauge(name: string, value: real, writeFails: bool)
      modifies this
      ensures gauges == if sqlBacked && writeFails then old(gauges) else old(gauges)[name := value]
      ensures counters == old(counters)
    {
      if !(sqlBacked && writeFails) {
        gauges := gauges[name := value];
      }
    }

    /** Stores `value` as the counter's total (every backend in use replaces), unless the SQL
        write failed after its retries. */
    method UpdateCounter(name: string, value: int64, writeFails: bool)
      modifies this
      ensures counters == if sqlBacked && writeFails then old(counters) else old(counters)[name := value]
      ensures gauges == old(gauges)
    {
      if !(sqlBacked && writeFails) {
        counters := counters[name := value];
      }
    }

    /** A failed SQL query answers (0, false), like a missing row. */
    function GetGauge(name: string, queryFails: bool): (r: (real, bool))
      reads this
      ensures r.1 <==> name in gauges && !(sqlBacked && queryFails)
      ensures r.1 ==> r.0 == gauges[name]
      ensures !r.1 ==> r.0 == 0.0
    {
      if name in gauges && !(sqlBacked && queryFails) then (gauges[name], true) else (0.0, false)
    }

    function GetCounter(name: string, queryFails: bool): (r: (int64, bool))
      reads this
      ensures r.1 <==> name in counters && !(sqlBacked && queryFails)
      ensures r.1 ==> r.0 == counters[name]
      ensures !r.1 ==> r.0 == 0
    {
      if name in counters && !(sqlBacked && queryFails) then (counters[name], true) else (0, false)
    }

    method GetKeyGauge(fault: Option<DbError>) returns (keys: seq<string>, err: Option<DbError>)
      ensures err == fault
      ensures err.Some? ==> keys == []
      ensures err.None? ==> (set k | k in keys) == gauges.Keys && NoDuplicates(keys)
    {
      if fault.Some? {
        return [], fault;
      }
      keys := MapKeys(gauges);
      err := None;
    }

    method GetKeyCounter(fault: Option<DbError>) returns (keys: seq<string>, err: Option<DbError>)
      ensures err == fault
      ensures err.Some? ==> keys == []
      ensures err.None? ==> (set k | k in keys) == counters.Keys && NoDuplicates(keys)
    {
      if fault.Some? {
        return [], fault;
      }
      keys := MapKeys(counters);
      err := None;
    }

    method BatchUpdate(ms: seq<Metrics>, fault: Option<DbError>) returns (err: Option<DbError>)
      modifies this
      ensures (err, State()) == BatchOutcome(old(State()), ms, sqlBacked, fault)
    {
      var r := BatchOutcome(State(), ms, sqlBacked, fault);
      err := r.0;
      gauges := r.1.gauges;
      counters := r.1.counters;
    }
  }
}
