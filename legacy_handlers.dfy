/** The first-generation HTTP handlers (`handlers/update.go`), bound to the in-memory
    storage. Every handler first applies the content-type rule of the middleware. */
module LegacyHandlers {
  import opened Wrappers
  import opened Models
  import opened Strings
  import opened Store
  import opened Validate
  import opened Service
  import opened Middleware
  import opened MemStorage
  import opened Handlers
  import Repository

  /** What `updateDataQuery` does to the stored maps: a gauge is replaced by the parsed
      float, a counter text is parsed as a base-10 int64 and added (two's complement) to the
      stored total, or stored when the name is new. */
  function QueryEffect(s: Store, metricType: string, name: string, value: string, parseFloat: string -> Option<real>)
    : (r: Result<Store, QueryError>)
    ensures r.Success? <==>
      (metricType == GaugeType && parseFloat(value).Some?) || (metricType == CounterType && ParseInt(value).Success?)
    ensures !IsKnownType(metricType) ==> r == Failure(UnknownType(metricType))
    ensures metricType == CounterType && ParseInt(value).Failure? ==> r == Failure(ParseIntError(ParseInt(value).error))
    ensures r.Success? ==> forall n :: n != name ==> Get(r.value.gauges, n) == Get(s.gauges, n) && Get(r.value.counters, n) == Get(s.counters, n)
    ensures r.Success? ==> (metricType == GaugeType ==> r.value.counters == s.counters)
                           && (metricType == CounterType ==> r.value.gauges == s.gauges)
  {
    if metricType == GaugeType then
      match parseFloat(value)
      case None => Failure(ParseFloatError)
      case Some(v) => Success(s.(gauges := s.gauges[name := v]))
    else if metricType == CounterType then
      match ParseInt(value)
      case Failure(k) => Failure(ParseIntError(k))
      case Success(d) =>
        var total := if name in s.counters then WrapAdd(d, s.counters[name]) else d;
        Success(s.(counters := s.counters[name := total]))
    else Failure(UnknownType(metricType))
  }

  /** Both generations of the URL update agree: the older handler's read-add-write on the
      storage has the effect of building the record and passing it to `UpdateMetric`. */
  lemma QueryEffectAgreesWithService(s: Store, metricType: string, name: string, value: string, parseFloat: string -> Option<real>)
    requires name != ""
    ensures QueryRecord(metricType, name, value, parseFloat).Failure? ==>
      QueryEffect(s, metricType, name, value, parseFloat) == Failure(QueryRecord(metricType, name, value, parseFloat).error)
    ensures QueryRecord(metricType, name, value, parseFloat).Success? ==>
      QueryEffect(s, metricType, name, value, parseFloat) == Success(UpdateOutcome(s, QueryRecord(metricType, name, value, parseFloat).value, Repository.NoFaults).1)
  {
    if metricType == CounterType && ParseInt(value).Success? {
      var d := ParseInt(value).value;
      assert WrapAdd(d, CurrentCounter(s, name)) == WrapAdd(CurrentCounter(s, name), d);
      assert WrapAdd(d, 0) == d;
    }
  }

  /** The JSON update as written passes the delta straight to `UpdateCounter`, which
      replaces: a counter at 5 updated by 3 reads 3 afterwards, where the URL update and
      the service both give 8. */
  lemma JsonCounterDoesNotAccumulate(s: Store)
    requires s.counters == map["c" := 5 as int64]
    ensures ApplyReplace(s, CounterRecord("c", 3)).counters["c"] == 3
    ensures UpdateOutcome(s, CounterRecord("c", 3), Repository.NoFaults).1.counters["c"] == 8
  {
    assert CounterRecord("c", 3).delta == Some(3 as int64);
  }

  /** One entry of the listing. */
  function MetricLine(name: string, text: string): string
  {
    name + ": " + text + ";"
  }

  /** The lines of the listing for the gauges named in `keys`, in that order. */
  function GaugeListing(g: map<string, real>, keys: seq<string>, formatGauge: real -> string): (r: seq<string>)
    requires forall k :: k in keys ==> k in g
    ensures |r| == |keys|
    ensures forall i :: 0 <= i < |keys| ==> r[i] == MetricLine(keys[i], formatGauge(g[keys[i]]))
  {
    seq(|keys|, i requires 0 <= i < |keys| => MetricLine(keys[i], formatGauge(g[keys[i]])))
  }

  /** The lines of the listing for the counters named in `keys`, in that order. */
  function CounterListing(c: map<string, int64>, keys: seq<string>): (r: seq<string>)
    requires forall k :: k in keys ==> k in c
    ensures |r| == |keys|
    ensures forall i :: 0 <= i < |keys| ==> r[i] == MetricLine(keys[i], FormatCounterValue(c[keys[i]]))
  {
    seq(|keys|, i requires 0 <= i < |keys| => MetricLine(keys[i], FormatCounterValue(c[keys[i]])))
  }

  lemma GaugeListingAppend(g: map<string, real>, keys: seq<string>, k: string, formatGauge: real -> string)
    requires forall n :: n in keys ==> n in g
    requires k in g
    ensures GaugeListing(g, keys + [k], formatGauge) == GaugeListing(g, keys, formatGauge) + [MetricLine(k, formatGauge(g[k]))]
  {
    var a := GaugeListing(g, keys + [k], formatGauge);
    var b := GaugeListing(g, keys, formatGauge) + [MetricLine(k, formatGauge(g[k]))];
    assert |a| == |b|;
    forall i | 0 <= i < |a|
      ensures a[i] == b[i]
    {
      if i < |keys| {
        assert (keys + [k])[i] == keys[i];
      }
    }
  }

  lemma CounterListingAppend(c: map<string, int64>, keys: seq<string>, k: string)
    requires forall n :: n in keys ==> n in c
    requires k in c
    ensures CounterListing(c, keys + [k]) == CounterListing(c, keys) + [MetricLine(k, FormatCounterValue(c[k]))]
  {
    var a := CounterListing(c, keys + [k]);
    var b := CounterListing(c, keys) + [MetricLine(k, FormatCounterValue(c[k]))];
    assert |a| == |b|;
    forall i | 0 <= i < |a|
      ensures a[i] == b[i]
    {
      if i < |keys| {
        assert (keys + [k])[i] == keys[i];
      }
    }
  }

  /** Every stored gauge and counter appears as a "name: value;" line of the listing text. */
  lemma ListingMentionsEveryMetric(s: Store, gaugeKeys: seq<string>, counterKeys: seq<string>, formatGauge: real -> string, name: string)
    requires (set k | k in gaugeKeys) == s.gauges.Keys && (set k | k in counterKeys) == s.counters.Keys
    ensures name in s.gauges ==>
      exists i :: OccursAt(Join(GaugeListing(s.gauges, gaugeKeys, formatGauge) + CounterListing(s.counters, counterKeys), "\n"),
                           MetricLine(name, formatGauge(s.gauges[name])), i)
    ensures name in s.counters ==>
      exists i :: OccursAt(Join(GaugeListing(s.gauges, gaugeKeys, formatGauge) + CounterListing(s.counters, counterKeys), "\n"),
                           MetricLine(name, FormatCounterValue(s.counters[name])), i)
  {
    var lines := GaugeListing(s.gauges, gaugeKeys, formatGauge) + CounterListing(s.counters, counterKeys);
    if name in s.gauges {
      var k := GaugeLineIndex(s, gaugeKeys, counterKeys, formatGauge, name);
      JoinContainsPart(lines, "\n", k);
    }
    if name in s.counters {
      var k := CounterLineIndex(s, gaugeKeys, counterKeys, formatGauge, name);
      JoinContainsPart(lines, "\n", k);
    }
  }

  lemma GaugeLineIndex(s: Store, gaugeKeys: seq<string>, counterKeys: seq<string>, formatGauge: real -> string, name: string)
    returns (k: nat)
    requires (set k | k in gaugeKeys) == s.gauges.Keys && (set k | k in counterKeys) == s.counters.Keys
    requires name in s.gauges
    ensures k < |GaugeListing(s.gauges, gaugeKeys, formatGauge) + CounterListing(s.counters, counterKeys)|
    ensures (GaugeListing(s.gauges, gaugeKeys, formatGauge) + CounterListing(s.counters, counterKeys))[k] == MetricLine(name, formatGauge(s.gauges[name]))
  {
    assert name in (set k | k in gaugeKeys);
    var j :| 0 <= j < |gaugeKeys| && gaugeKeys[j] == name;
    k := j;
  }

  lemma CounterLineIndex(s: Store, gaugeKeys: seq<string>, counterKeys: seq<string>, formatGauge: real -> string, name: string)
    returns (k: nat)
    requires (set k | k in gaugeKeys) == s.gauges.Keys && (set k | k in counterKeys) == s.counters.Keys
    requires name in s.counters
    ensures k < |GaugeListing(s.gauges, gaugeKeys, formatGauge) + CounterListing(s.counters, counterKeys)|
    ensures (GaugeListing(s.gauges, gaugeKeys, formatGauge) + CounterListing(s.counters, counterKeys))[k] == MetricLine(name, FormatCounterValue(s.counters[name]))
  {
    assert name in (set k | k in counterKeys);
    var j :| 0 <= j < |counterKeys| && counterKeys[j] == name;
    k := |gaugeKeys| + j;
  }

  class Handler {
    const repo: MemStorageData

    constructor(repo: MemStorageData)
      ensures this.repo == repo
    {
      this.repo := repo;
    }

    /** `updateDataQuery`: on success the maps become `QueryEffect`'s and, with synchronous
        saving, the file holds the new contents; on failure nothing changes. */
    method UpdateDataQuery(metricType: string, name: string, value: string, parseFloat: string -> Option<real>, fault: SaveFault)
      returns (err: Option<QueryError>)
      modifies repo
      ensures QueryEffect(old(repo.State()), metricType, name, value, parseFloat).Failure? ==>
        err == Some(QueryEffect(old(repo.State()), metricType, name, value, parseFloat).error)
        && repo.State() == old(repo.State()) && repo.file == old(repo.file)
      ensures QueryEffect(old(repo.State()), metricType, name, value, parseFloat).Success? ==>
        err.None? && repo.State() == QueryEffect(old(repo.State()), metricType, name, value, parseFloat).value
        && repo.file == (if repo.isSyncSave then SaveSpec(repo.State(), repo.fileToSave, fault, old(repo.file)).1 else old(repo.file))
    {
      if metricType == GaugeType {
        var v := parseFloat(value);
        if v.None? {
          return Some(ParseFloatError);
        }
        repo.UpdateGauge(name, v.value, fault);
        return None;
      } else if metricType == CounterType {
        var parsed := ParseInt(value);
        if parsed.Failure? {
          return Some(ParseIntError(parsed.error));
        }
        var val := parsed.value;
        var (previous, ok) := repo.GetCounter(name);
        if ok {
          val := WrapAdd(val, previous);
        }
        repo.UpdateCounter(name, val, fault);
        return None;
      }
      return Some(UnknownType(metricType));
    }

    /** `UpdateHandlerQuery`: 415 for a foreign content type, then 404 for an empty name,
        400 for an empty value or type, 400 when the update fails, otherwise 200. */
    method UpdateHandlerQuery(contentType: string, metricType: string, name: string, value: string,
                              parseFloat: string -> Option<real>, fault: SaveFault)
      returns (status: int)
      modifies repo
      ensures !ContentTypeAccepted(contentType, PlainTextMediaType) ==> status == StatusUnsupportedMediaType
      ensures ContentTypeAccepted(contentType, PlainTextMediaType) && name == "" ==> status == StatusNotFound
      ensures ContentTypeAccepted(contentType, PlainTextMediaType) && name != "" && (value == "" || metricType == "") ==>
        status == StatusBadRequest
      ensures status == StatusOK <==>
        ContentTypeAccepted(contentType, PlainTextMediaType) && name != "" && value != "" && metricType != ""
        && QueryEffect(old(repo.State()), metricType, name, value, parseFloat).Success?
      ensures status == StatusOK ==>
        repo.State() == QueryEffect(old(repo.State()), metricType, name, value, parseFloat).value
        && repo.file == (if repo.isSyncSave then SaveSpec(repo.State(), repo.fileToSave, fault, old(repo.file)).1 else old(repo.file))
      ensures status != StatusOK ==> repo.State() == old(repo.State()) && repo.file == old(repo.file)
      ensures status in {StatusOK, StatusBadRequest, StatusNotFound, StatusUnsupportedMediaType}
    {
      if !ContentTypeAccepted(contentType, PlainTextMediaType) {
        return StatusUnsupportedMediaType;
      }
      if name == "" {
        return StatusNotFound;
      }
      if value == "" || metricType == "" {
        return StatusBadRequest;
      }
      var err := UpdateDataQuery(metricType, name, value, parseFloat, fault);
      if err.Some? {
        return StatusBadRequest;
      }
      return StatusOK;
    }

    /** `UpdateHandlerJson`: 415 for a foreign content type, 400 for an unreadable or invalid
        body; otherwise the record's field replaces the stored one (a counter delta is not
        added to the previous total) and the stored value is sent back. */
    method UpdateHandlerJson(contentType: string, request: Option<Metrics>, fault: SaveFault)
      returns (status: int, body: Option<Metrics>)
      modifies repo
      ensures !ContentTypeAccepted(contentType, JsonMediaType) ==> status == StatusUnsupportedMediaType
      ensures ContentTypeAccepted(contentType, JsonMediaType) && request.None? ==> status == StatusBadRequest
      ensures status == StatusOK <==>
        ContentTypeAccepted(contentType, JsonMediaType) && request.Some? && ValidateUpdateJSON(request.value).None?
      ensures status != StatusOK ==> body.None? && repo.State() == old(repo.State()) && repo.file == old(repo.file)
      ensures status == StatusOK ==>
        repo.State() == ApplyReplace(old(repo.State()), request.value)
        && repo.file == (if repo.isSyncSave then SaveSpec(repo.State(), repo.fileToSave, fault, old(repo.file)).1 else old(repo.file))
        && body == Some(request.value)
      ensures status in {StatusOK, StatusBadRequest, StatusUnsupportedMediaType}
    {
      if !ContentTypeAccepted(contentType, JsonMediaType) {
        return StatusUnsupportedMediaType, None;
      }
      if request.None? {
        return StatusBadRequest, None;
      }
      var m := request.value;
      if ValidateUpdateJSON(m).Some? {
        return StatusBadRequest, None;
      }
      if m.mtype == GaugeType {
        repo.UpdateGauge(m.id, m.value.value, fault);
        var (stored, _) := repo.GetGauge(m.id);
        m := m.(value := Some(stored));
      } else {
        repo.UpdateCounter(m.id, m.delta.value, fault);
        var (stored, _) := repo.GetCounter(m.id);
        m := m.(delta := Some(stored));
      }
      return StatusOK, Some(m);
    }

    /** `getStringValue`: the text of a stored metric, or ("", false) for an unknown type or
        an absent name; it only reads. */
    function GetStringValue(metricType: string, name: string, formatGauge: real -> string): (r: (string, bool))
      reads repo
      ensures r.1 <==> (metricType == GaugeType && name in repo.gauge) || (metricType == CounterType && name in repo.counter)
      ensures !r.1 ==> r.0 == ""
      ensures r.1 && metricType == GaugeType ==> r.0 == formatGauge(repo.gauge[name])
      ensures r.1 && metricType == CounterType ==> ParseInt(r.0) == Success(repo.counter[name])
    {
      if metricType == GaugeType then
        var (v, ok) := repo.GetGauge(name);
        if !ok then ("", false) else (formatGauge(v), ok)
      else if metricType == CounterType then
        var (v, ok) := repo.GetCounter(name);
        ParseFormatRoundTrip(v);
        (if ok then FormatCounterValue(v) else "", ok)
      else ("", false)
    }

    /** The gauge loop of `GetAllMetrics`. */
    method GaugeLines(keys: seq<string>, formatGauge: real -> string) returns (list: seq<string>)
      requires forall k :: k in keys ==> k in repo.gauge
      ensures list == GaugeListing(repo.gauge, keys, formatGauge)
    {
      list := [];
      var i := 0;
      while i < |keys|
        invariant 0 <= i <= |keys|
        invariant list == GaugeListing(repo.gauge, keys[..i], formatGauge)
      {
        var key := keys[i];
        var (value, _) := GetStringValue(GaugeType, key, formatGauge);
        assert keys[..i + 1] == keys[..i] + [key];
        GaugeListingAppend(repo.gauge, keys[..i], key, formatGauge);
        list := list + [MetricLine(key, value)];
        i := i + 1;
      }
      assert keys[..i] == keys;
    }

    /** The counter loop of `GetAllMetrics`. */
    method CounterLines(keys: seq<string>, formatGauge: real -> string) returns (list: seq<string>)
      requires forall k :: k in keys ==> k in repo.counter
      ensures list == CounterListing(repo.counter, keys)
    {
      list := [];
      var j := 0;
      while j < |keys|
        invariant 0 <= j <= |keys|
        invariant list == CounterListing(repo.counter, keys[..j])
      {
        var key := keys[j];
        var (value, _) := GetStringValue(CounterType, key, formatGauge);
        assert keys[..j + 1] == keys[..j] + [key];
        CounterListingAppend(repo.counter, keys[..j], key);
        list := list + [MetricLine(key, value)];
        j := j + 1;
      }
      assert keys[..j] == keys;
    }

    /** `GetAllMetrics`: 415 for a foreign content type; otherwise one "name: value;" line
        per gauge in listing order, then one per counter, joined by newlines. The listing
        orders are those of the map iteration, returned as ghost results. */
    method GetAllMetrics(contentType: string, formatGauge: real -> string)
      returns (status: int, text: string, ghost gaugeKeys: seq<string>, ghost counterKeys: seq<string>)
      ensures !ContentTypeAccepted(contentType, PlainTextMediaType) ==> status == StatusUnsupportedMediaType && text == ""
      ensures ContentTypeAccepted(contentType, PlainTextMediaType) ==>
        status == StatusOK
        && (set k | k in gaugeKeys) == repo.gauge.Keys && NoDuplicates(gaugeKeys)
        && (set k | k in counterKeys) == repo.counter.Keys && NoDuplicates(counterKeys)
        && text == Join(GaugeListing(repo.gauge, gaugeKeys, formatGauge) + CounterListing(repo.counter, counterKeys), "\n")
    {
      if !ContentTypeAccepted(contentType, PlainTextMediaType) {
        return StatusUnsupportedMediaType, "", [], [];
      }
      var keysG := repo.GetKeyGauge();
      var gaugeLines := GaugeLines(keysG, formatGauge);
      var keysC := repo.GetKeyCounter();
      var counterLines := CounterLines(keysC, formatGauge);
      var list := gaugeLines + counterLines;
      return StatusOK, Join(list, "\n"), keysG, keysC;
    }
  }
}
