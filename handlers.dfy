/** The current HTTP handlers (`internal/server/handlers`): the URL update, the JSON update,
    the text rendering of one metric and the response signature. Float parsing and
    formatting, JSON encoding and HMAC-SHA-256 are parameters. */
module Handlers {
  import opened Wrappers
  import opened Models
  import opened Store
  import opened AppErrors
  import opened Validate
  import opened Repository
  import opened Service
  import opened Hex
  import opened Middleware

  datatype QueryError =
    | ParseFloatError
    | ParseIntError(kind: NumError)
    | UnknownType(metricType: string)
    | Rejected(app: AppError)

  /** The record `updateDataQuery` builds from the URL: id and type as given, and exactly
      the field of its type, parsed from the value text. */
  function QueryRecord(metricType: string, name: string, value: string, parseFloat: string -> Option<real>): (r: Result<Metrics, QueryError>)
    ensures r.Success? ==> r.value.id == name && r.value.mtype == metricType && HasMatchingField(r.value)
    ensures r.Success? ==> r.value.value.Some? != r.value.delta.Some?
    ensures metricType == GaugeType ==> (r.Success? <==> parseFloat(value).Some?)
    ensures metricType == GaugeType && r.Success? ==> r.value.value == parseFloat(value)
    ensures metricType == CounterType ==> (r.Success? <==> ParseInt(value).Success?)
    ensures metricType == CounterType && r.Success? ==> r.value.delta == Some(ParseInt(value).value)
    ensures !IsKnownType(metricType) ==> r == Failure(UnknownType(metricType))
  {
    if metricType == GaugeType then
      match parseFloat(value)
      case None => Failure(ParseFloatError)
      case Some(v) => Success(Metrics(name, metricType, None, Some(v)))
    else if metricType == CounterType then
      match ParseInt(value)
      case Failure(k) => Failure(ParseIntError(k))
      case Success(d) => Success(Metrics(name, metricType, Some(d), None))
    else Failure(UnknownType(metricType))
  }

  /** The service never refuses a record built from a URL with a name, whatever the
      repository calls do. */
  lemma QueryRecordAccepted(s: Store, metricType: string, name: string, value: string, parseFloat: string -> Option<real>, f: RepoFaults)
    requires name != "" && QueryRecord(metricType, name, value, parseFloat).Success?
    ensures UpdateOutcome(s, QueryRecord(metricType, name, value, parseFloat).value, f).0.None?
  {
  }

  /** `updateDataQuery`: build the record, then `UpdateMetric` (with the repository faults
      `f`). */
  method UpdateDataQuery(svc: MetricsService, metricType: string, name: string, value: string, parseFloat: string -> Option<real>, f: RepoFaults)
    returns (err: Option<QueryError>)
    modifies svc.repo
    ensures QueryRecord(metricType, name, value, parseFloat).Failure? ==>
      err == Some(QueryRecord(metricType, name, value, parseFloat).error) && svc.repo.State() == old(svc.repo.State())
    ensures QueryRecord(metricType, name, value, parseFloat).Success? ==>
      var (e, s) := UpdateOutcome(old(svc.repo.State()), QueryRecord(metricType, name, value, parseFloat).value, svc.repo.Effective(f));
      svc.repo.State() == s && err == (if e.Some? then Some(Rejected(e.value)) else None)
  {
    var rec := QueryRecord(metricType, name, value, parseFloat);
    if rec.Failure? {
      return Some(rec.error);
    }
    var e := svc.UpdateMetric(rec.value, f);
    err := if e.Some? then Some(Rejected(e.value)) else None;
  }

  /** `UpdateHandlerQuery`: 404 for a missing name, 400 for a missing value or type, 400
      when the record cannot be built or is refused, otherwise 200 and one audit event
      naming the metric; a write the SQL backend dropped still answers 200. */
  method UpdateHandlerQuery(svc: MetricsService, metricType: string, name: string, value: string, parseFloat: string -> Option<real>, f: RepoFaults)
    returns (status: int, published: seq<string>)
    modifies svc.repo
    ensures name == "" ==> status == StatusNotFound
    ensures name != "" && (value == "" || metricType == "") ==> status == StatusBadRequest
    ensures status != StatusOK ==> svc.repo.State() == old(svc.repo.State()) && published == []
    ensures status == StatusOK <==>
      name != "" && value != "" && metricType != "" && QueryRecord(metricType, name, value, parseFloat).Success?
    ensures status == StatusOK ==>
      published == [name]
      && svc.repo.State() == UpdateOutcome(old(svc.repo.State()), QueryRecord(metricType, name, value, parseFloat).value, svc.repo.Effective(f)).1
    ensures status == StatusOK && svc.repo.sqlBacked && f.writeFails ==> svc.repo.State() == old(svc.repo.State())
    ensures status in {StatusOK, StatusBadRequest, StatusNotFound}
  {
    if name == "" {
      return StatusNotFound, [];
    }
    if value == "" || metricType == "" {
      return StatusBadRequest, [];
    }
    if QueryRecord(metricType, name, value, parseFloat).Success? {
      QueryRecordAccepted(svc.repo.State(), metricType, name, value, parseFloat, svc.repo.Effective(f));
    }
    var err := UpdateDataQuery(svc, metricType, name, value, parseFloat, f);
    if err.Some? {
      return StatusBadRequest, [];
    }
    return StatusOK, [name];
  }

  /** A counter sent through the URL is added to the stored total (two's complement) when
      the repository calls succeed. */
  lemma QueryCounterAccumulates(s: Store, name: string, value: string, parseFloat: string -> Option<real>)
    requires name != "" && ParseInt(value).Success?
    ensures var m := QueryRecord(CounterType, name, value, parseFloat).value;
      UpdateOutcome(s, m, NoFaults).1.counters[name] == WrapAdd(CurrentCounter(s, name), ParseInt(value).value)
  {
  }

  /** `bodySignature`: no signature without a key, otherwise HMAC-SHA-256 of the body. */
  function BodySignature(data: seq<uint8>, key: string, hmac: (string, seq<uint8>) -> seq<uint8>): (r: Option<seq<uint8>>)
    ensures r.None? <==> key == ""
    ensures r.Some? ==> r.value == hmac(key, data)
  {
    if key == "" then None else Some(hmac(key, data))
  }

  /** The answer of `UpdateHandlerJSON`: status, the record written back (JSON-encoded by
      `marshal`), the `HashSHA256` header, and the metric names sent to the audit. */
  datatype JsonResponse = JsonResponse(status: int, body: Option<Metrics>, hashHeader: Option<string>, published: seq<string>)

  /** Whether `s` holds a metric of `m`'s type under `m`'s name. */
  predicate Stored(s: Store, m: Metrics)
  {
    if m.mtype == GaugeType then m.id in s.gauges else m.id in s.counters
  }

  /** `UpdateHandlerJSON`. `request` is the decoded body, `None` when reading or decoding it
      fails; `f` are the faults of the update's repository calls and `readBackFails` whether
      the SQL query of the read-back fails. */
  method UpdateHandlerJSON(svc: MetricsService, request: Option<Metrics>, key: string,
                           marshal: Metrics -> seq<uint8>, hmac: (string, seq<uint8>) -> seq<uint8>,
                           f: RepoFaults, readBackFails: bool)
    returns (resp: JsonResponse)
    modifies svc.repo
    ensures request.None? ==> resp == JsonResponse(StatusBadRequest, None, None, []) && svc.repo.State() == old(svc.repo.State())
    ensures request.Some? ==> svc.repo.State() == UpdateOutcome(old(svc.repo.State()), request.value, svc.repo.Effective(f)).1
    ensures request.Some? && UpdateOutcome(old(svc.repo.State()), request.value, svc.repo.Effective(f)).0.Some? ==>
      resp == JsonResponse(StatusBadRequest, None, None, [])
    ensures request.Some? && UpdateOutcome(old(svc.repo.State()), request.value, svc.repo.Effective(f)).0.None? ==>
      (resp.status == StatusInternalServerError <==>
        svc.repo.sqlBacked && (readBackFails || (f.writeFails && !Stored(old(svc.repo.State()), request.value))))
    ensures resp.status == StatusOK <==>
      request.Some? && UpdateOutcome(old(svc.repo.State()), request.value, svc.repo.Effective(f)).0.None?
      && !(svc.repo.sqlBacked && (readBackFails || (f.writeFails && !Stored(old(svc.repo.State()), request.value))))
    ensures resp.status in {StatusOK, StatusBadRequest, StatusInternalServerError}
    ensures resp.status == StatusOK ==>
      var m := request.value;
      resp.body == Some(svc.GetMetricJSON(m, readBackFails).value) && resp.published == [m.id]
      && (m.mtype == GaugeType ==> resp.body.value == m.(value := Some(svc.repo.gauges[m.id])))
      && (m.mtype == CounterType ==> resp.body.value == m.(delta := Some(svc.repo.counters[m.id])))
      && (resp.hashHeader.Some? <==> key != "")
      && (key != "" ==> resp.hashHeader.value == EncodeToString(hmac(key, marshal(resp.body.value))))
  {
    if request.None? {
      return JsonResponse(StatusBadRequest, None, None, []);
    }
    var m := request.value;
    ghost var s0 := svc.repo.State();
    var err := svc.UpdateMetric(m, f);
    if err.Some? {
      return JsonResponse(StatusBadRequest, None, None, []);
    }
    assert Stored(svc.repo.State(), m) <==> !(svc.repo.sqlBacked && f.writeFails && !Stored(s0, m));
    var result := svc.GetMetricJSON(m, readBackFails);
    if result.Failure? {
      return JsonResponse(StatusInternalServerError, None, None, []);
    }
    var data := marshal(result.value);
    var hash := BodySignature(data, key, hmac);
    var header := if hash.Some? then Some(EncodeToString(hash.value)) else None;
    return JsonResponse(StatusOK, Some(result.value), header, [m.id]);
  }

  /** `getStringValue`: the text of a stored metric, or ("", false) for an unknown type,
      an absent name or a failed SQL query; it only reads. */
  function GetStringValue(repo: MetricsRepo, metricType: string, name: string, formatGauge: real -> string, queryFails: bool): (r: (string, bool))
    reads repo
    ensures r.1 <==> (!(repo.sqlBacked && queryFails) &&
      ((metricType == GaugeType && name in repo.gauges) || (metricType == CounterType && name in repo.counters)))
    ensures !r.1 ==> r.0 == ""
    ensures r.1 && metricType == GaugeType ==> r.0 == formatGauge(repo.gauges[name])
    ensures r.1 && metricType == CounterType ==> ParseInt(r.0) == Success(repo.counters[name])
  {
    if metricType == GaugeType then
      var (v, ok) := repo.GetGauge(name, queryFails);
      if !ok then ("", false) else (formatGauge(v), ok)
    else if metricType == CounterType then
      var (v, ok) := repo.GetCounter(name, queryFails);
      ParseFormatRoundTrip(v);
      (if ok then FormatCounterValue(v) else "", ok)
    else ("", false)
  }
}
