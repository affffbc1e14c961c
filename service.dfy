/** `service.MetricsService`: validation, lookups, counter accumulation by read-then-write,
    batch delegation and the listing shown on the index page. */
module Service {
  import opened Wrappers
  import opened Models
  import opened Store
  import opened AppErrors
  import opened DbErrors
  import opened Validate
  import opened Repository

  datatype ServiceError = App(app: AppError) | Storage(db: DbError)

  /** The value `GetMetric` returns (an `interface{}` holding a float64 or an int64). */
  datatype MetricValue = GaugeValue(gauge: real) | CounterValue(counter: int64)

  /** `validateGetMetricJSON` and `validateUpdateMetric`, which are identical: a non-empty
      id, then a known type. */
  function ValidateMetric(m: Metrics): (r: Option<AppError>)
    ensures r.None? <==> m.id != "" && IsKnownType(m.mtype)
    ensures m.id == "" ==> r == Some(ErrMetricIDRequired)
    ensures m.id != "" && !IsKnownType(m.mtype) ==> r == Some(ErrInvalidMetricType)
  {
    if m.id == "" then Some(ErrMetricIDRequired)
    else if m.mtype != GaugeType && m.mtype != CounterType then Some(ErrInvalidMetricType)
    else None
  }

  /** The stored counter total, 0 when absent (the ignored `ok` of `GetCounter`). */
  function CurrentCounter(s: Store, name: string): int64
  {
    if name in s.counters then s.counters[name] else 0
  }

  /** What `UpdateMetric` does to the repository contents under the faults `f` that take
      effect: the error, and the new contents. The repository calls report no error, so a
      dropped write still answers nil, and a failed read of the current total counts as 0. */
  function UpdateOutcome(s: Store, m: Metrics, f: RepoFaults): (r: (Option<AppError>, Store))
    ensures r.0.Some? ==> r.1 == s
    ensures r.0.None? <==> m.id != "" && HasMatchingField(m)
    ensures r.0.None? && f.writeFails ==> r.1 == s
    ensures r.0.None? && !f.writeFails && m.mtype == GaugeType ==> r.1 == s.(gauges := s.gauges[m.id := m.value.value])
    ensures r.0.None? && !f.writeFails && m.mtype == CounterType ==>
      var base := if f.readFails then 0 else CurrentCounter(s, m.id);
      r.1.gauges == s.gauges && r.1.counters.Keys == s.counters.Keys + {m.id}
      && (forall n :: n in s.counters && n != m.id ==> r.1.counters[n] == s.counters[n])
      && (InInt64Range(base as int + m.delta.value as int) ==>
            r.1.counters[m.id] as int == base as int + m.delta.value as int)
    ensures m.id != "" && m.mtype == GaugeType && m.value.None? ==> r.0 == Some(ErrGaugeValueRequired)
    ensures m.id != "" && m.mtype == CounterType && m.delta.None? ==> r.0 == Some(ErrCounterDeltaRequired)
  {
    match ValidateMetric(m)
    case Some(e) => (Some(e), s)
    case None =>
      if m.mtype == GaugeType then
        if m.value.None? then (Some(ErrGaugeValueRequired), s)
        else if f.writeFails then (None, s)
        else (None, s.(gauges := s.gauges[m.id := m.value.value]))
      else
        if m.delta.None? then (Some(ErrCounterDeltaRequired), s)
        else if f.writeFails then (None, s)
        else
          var current := if f.readFails then 0 else CurrentCounter(s, m.id);
          (None, s.(counters := s.counters[m.id := WrapAdd(current, m.delta.value)]))
  }

  /** Two counter updates in a row add up: the total ends at the old total plus both
      deltas, while no partial sum leaves the int64 range. */
  lemma {:induction false} CounterUpdatesAccumulate(s: Store, name: string, d1: int64, d2: int64)
    requires name != ""
    requires InInt64Range(CurrentCounter(s, name) as int + d1 as int)
    requires InInt64Range(CurrentCounter(s, name) as int + d1 as int + d2 as int)
    ensures var s1 := UpdateOutcome(s, CounterRecord(name, d1), NoFaults).1;
      var s2 := UpdateOutcome(s1, CounterRecord(name, d2), NoFaults).1;
      CurrentCounter(s2, name) as int == CurrentCounter(s, name) as int + d1 as int + d2 as int
  {
    var s1 := UpdateOutcome(s, CounterRecord(name, d1), NoFaults).1;
    assert CurrentCounter(s1, name) as int == CurrentCounter(s, name) as int + d1 as int;
  }

  /** With PostgreSQL, a read of the current total that fails reads as absent, so the
      update stores the delta alone and the accumulated total is lost, with no error. */
  lemma FailedReadResetsCounter(s: Store, name: string, d: int64)
    requires name != ""
    ensures UpdateOutcome(s, CounterRecord(name, d), RepoFaults(true, false)) ==
      (None, s.(counters := s.counters[name := d]))
  {
    assert WrapAdd(0, d) == d;
  }

  /** A write dropped after its retries leaves the contents as they were and still reports
      success. */
  lemma DroppedWriteReportsSuccess(s: Store, m: Metrics, readFails: bool)
    requires m.id != "" && HasMatchingField(m)
    ensures UpdateOutcome(s, m, RepoFaults(readFails, true)) == (None, s)
  {
  }

  /** Go's `current + *metric.Delta` wraps around: one past the largest total is the
      smallest. */
  lemma CounterUpdateWraps(s: Store, name: string)
    requires name != "" && name in s.counters && s.counters[name] as int == MaxInt64
    ensures UpdateOutcome(s, CounterRecord(name, 1), NoFaults).1.counters[name] as int == MinInt64
  {
  }

  /** The listing: every gauge and counter name, gauges formatted with `formatGauge`,
      counters in decimal; a name present in both shows the counter. */
  function MetricsText(s: Store, formatGauge: real -> string): (r: map<string, string>)
    ensures r.Keys == s.gauges.Keys + s.counters.Keys
  {
    map k | k in s.gauges.Keys + s.counters.Keys ::
      if k in s.counters then FormatCounterValue(s.counters[k]) else formatGauge(s.gauges[k])
  }

  /** Every counter line of the listing parses back to the stored total. */
  lemma ListedCountersParseBack(s: Store, formatGauge: real -> string, k: string)
    requires k in s.counters
    ensures k in MetricsText(s, formatGauge) && ParseInt(MetricsText(s, formatGauge)[k]) == Success(s.counters[k])
  {
    ParseFormatRoundTrip(s.counters[k]);
  }

  class MetricsService {
    const repo: MetricsRepo

    constructor (repo: MetricsRepo)
      ensures this.repo == repo
    {
      this.repo := repo;
    }

    /** `GetMetric`: an unknown type first, then an absent name, otherwise the stored value.
        `queryFails` is whether the SQL query fails, which reads as an absent name. */
    function GetMetric(metricType: string, name: string, queryFails: bool): (r: Result<MetricValue, AppError>)
      reads repo
      ensures r == Failure(ErrUnknownMetricType) <==> !IsKnownType(metricType)
      ensures r == Failure(ErrMetricNotFound) <==>
        (IsKnownType(metricType) && repo.sqlBacked && queryFails)
        || (metricType == GaugeType && name !in repo.gauges) || (metricType == CounterType && name !in repo.counters)
      ensures r.Success? && metricType == GaugeType ==> r.value == GaugeValue(repo.gauges[name])
      ensures r.Success? && metricType == CounterType ==> r.value == CounterValue(repo.counters[name])
    {
      if metricType == GaugeType then
        var (value, found) := repo.GetGauge(name, queryFails);
        if !found then Failure(ErrMetricNotFound) else Success(GaugeValue(value))
      else if metricType == CounterType then
        var (value, found) := repo.GetCounter(name, queryFails);
        if !found then Failure(ErrMetricNotFound) else Success(CounterValue(value))
      else Failure(ErrUnknownMetricType)
    }

    /** `GetMetricJSON`: validation before any lookup, then the input record with `Value`
        (gauge) or `Delta` (counter) set to the stored value; a failed SQL query reads as
        an absent name. */
    function GetMetricJSON(m: Metrics, queryFails: bool): (r: Result<Metrics, AppError>)
      reads repo
      ensures ValidateMetric(m).Some? ==> r == Failure(ValidateMetric(m).value)
      ensures ValidateMetric(m).None? && repo.sqlBacked && queryFails ==> r == Failure(ErrMetricNotFound)
      ensures ValidateMetric(m).None? && !(repo.sqlBacked && queryFails) && m.mtype == GaugeType ==>
        if m.id in repo.gauges then r == Success(m.(value := Some(repo.gauges[m.id])))
        else r == Failure(ErrMetricNotFound)
      ensures ValidateMetric(m).None? && !(repo.sqlBacked && queryFails) && m.mtype == CounterType ==>
        if m.id in repo.counters then r == Success(m.(delta := Some(repo.counters[m.id])))
        else r == Failure(ErrMetricNotFound)
      ensures r.Success? ==> r.value.id == m.id && r.value.mtype == m.mtype
    {
      match ValidateMetric(m)
      case Some(e) => Failure(e)
      case None =>
        if m.mtype == GaugeType then
          var (value, found) := repo.GetGauge(m.id, queryFails);
          if !found then Failure(ErrMetricNotFound) else Success(m.(value := Some(value)))
        else
          var (value, found) := repo.GetCounter(m.id, queryFails);
          if !found then Failure(ErrMetricNotFound) else Success(m.(delta := Some(value)))
    }

    /** `UpdateMetric`: validate, then store a gauge's value or a counter's old total plus
        its delta (read, then write). `f` says which repository calls fail. */
    method UpdateMetric(m: Metrics, f: RepoFaults) returns (err: Option<AppError>)
      modifies repo
      ensures (err, repo.State()) == UpdateOutcome(old(repo.State()), m, repo.Effective(f))
    {
      err := ValidateMetric(m);
      if err.Some? {
        return;
      }
      if m.mtype == GaugeType {
        if m.value.None? {
          return Some(ErrGaugeValueRequired);
        }
        repo.UpdateGauge(m.id, m.value.value, f.writeFails);
      } else {
        if m.delta.None? {
          return Some(ErrCounterDeltaRequired);
        }
        var (current, _) := repo.GetCounter(m.id, f.readFails);
        repo.UpdateCounter(m.id, WrapAdd(current, m.delta.value), f.writeFails);
      }
    }

    /** `BatchUpdate`: an empty list is refused before the repository is touched; any
        other list is handed over unchanged. */
    method BatchUpdate(ms: seq<Metrics>, fault: Option<DbError>) returns (err: Option<ServiceError>)
      modifies repo
      ensures ms == [] ==> err == Some(App(ErrEmptyMetrics)) && repo.State() == old(repo.State())
      ensures ms != [] ==> var (e, s) := BatchOutcome(old(repo.State()), ms, repo.sqlBacked, fault);
        repo.State() == s && err == (if e.Some? then Some(Storage(e.value)) else None)
    {
      if |ms| == 0 {
        return Some(App(ErrEmptyMetrics));
      }
      var e := repo.BatchUpdate(ms, fault);
      err := if e.Some? then Some(Storage(e.value)) else None;
    }

    /** `GetAllMetricsData`: the gauge names, then the counter names; either listing failing
        ends the call with that error and no map. */
    method GetAllMetricsData(formatGauge: real -> string, gaugeFault: Option<DbError>, counterFault: Option<DbError>)
      returns (result: map<string, string>, err: Option<DbError>)
      ensures err == if gaugeFault.Some? then gaugeFault else counterFault
      ensures err.Some? ==> result == map[]
      ensures err.None? ==> result == MetricsText(repo.State(), formatGauge)
    {
      var keysGauge, errG := repo.GetKeyGauge(gaugeFault);
      if errG.Some? {
        return map[], errG;
      }
      var gaugeText := GaugeLines(keysGauge, formatGauge);
      var keysCounter, errC := repo.GetKeyCounter(counterFault);
      if errC.Some? {
        return map[], errC;
      }
      result := CounterLines(gaugeText, keysCounter);
      assert result == MetricsText(repo.State(), formatGauge);
      return result, None;
    }

    /** The first loop of `GetAllMetricsData`: one entry per listed gauge. */
    method GaugeLines(keys: seq<string>, formatGauge: real -> string) returns (result: map<string, string>)
      requires (set k | k in keys) == repo.gauges.Keys
      ensures result.Keys == repo.gauges.Keys
      ensures forall k :: k in result ==> result[k] == formatGauge(repo.gauges[k])
    {
      result := map[];
      var i := 0;
      while i < |keys|
        invariant 0 <= i <= |keys|
        invariant result.Keys == set k | k in keys[..i]
        invariant forall k :: k in result ==> k in repo.gauges && result[k] == formatGauge(repo.gauges[k])
      {
        var key := keys[i];
        assert key in repo.gauges;
        var (value, found) := repo.GetGauge(key, false);
        if found {
          result := result[key := formatGauge(value)];
        }
        assert keys[..i + 1] == keys[..i] + [key];
        i := i + 1;
      }
      assert keys[..|keys|] == keys;
    }

    /** The second loop of `GetAllMetricsData`: every listed counter overwrites its name. */
    method CounterLines(start: map<string, string>, keys: seq<string>) returns (result: map<string, string>)
      requires (set k | k in keys) == repo.counters.Keys
      ensures result.Keys == start.Keys + repo.counters.Keys
      ensures forall k :: k in repo.counters ==> result[k] == FormatCounterValue(repo.counters[k])
      ensures forall k :: k in start && k !in repo.counters ==> result[k] == start[k]
    {
      result := start;
      var j := 0;
      while j < |keys|
        invariant 0 <= j <= |keys|
        invariant result.Keys == start.Keys + set k | k in keys[..j]
        invariant forall k :: k in keys[..j] ==> k in repo.counters && result[k] == FormatCounterValue(repo.counters[k])
        invariant forall k :: k in start && k !in keys[..j] ==> result[k] == start[k]
      {
        var key := keys[j];
        assert key in repo.counters;
        var (value, found) := repo.GetCounter(key, false);
        if found {
          result := result[key := FormatCounterValue(value)];
        }
        assert keys[..j + 1] == keys[..j] + [key];
        j := j + 1;
      }
      assert keys[..|keys|] == keys;
    }
  }
}
