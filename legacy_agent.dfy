/** The first agent (`cmd/agent/main.go`): the same snapshot and batch as the current one,
    sent without encryption or signature through a hand-written retry loop. */
module LegacyAgent {
  import opened Wrappers
  import opened Models
  import opened Snapshot
  import opened Sender
  import opened Hex
  import Retry

  /** The loop dereferences the response of every failed POST before its nil check, so a
      run is well defined only when failed POSTs come with a response. */
  ghost predicate FailuresAnswered(attempts: nat -> Attempt)
  {
    forall k: nat :: k < Retry.MaxAttempts && attempts(k).err.Some? ==> attempts(k).resp.Some?
  }

  datatype LegacyCodecs = LegacyCodecs(marshal: seq<Metrics> -> Option<seq<uint8>>, compress: seq<uint8> -> Option<seq<uint8>>)

  /** The body of the older batch request: JSON, then gzip. */
  function LegacyPayload(batch: seq<Metrics>, c: LegacyCodecs): (r: Result<seq<uint8>, SendError>)
    ensures r == Failure(EmptyMetrics) <==> batch == []
    ensures r.Success? ==> c.marshal(batch).Some? && c.compress(c.marshal(batch).value) == Some(r.value)
  {
    if batch == [] then Failure(EmptyMetrics)
    else match c.marshal(batch)
      case None => Failure(MarshalError)
      case Some(json) =>
        match c.compress(json)
        case None => Failure(CompressError)
        case Some(body) => Success(body)
  }

  class LegacyAgentData {
    const url: string
    const reportInterval: int
    const pollInterval: int
    var pollCount: int64
    var metrics: map<string, real>

    /** `createAgent`. */
    constructor(url: string, reportInterval: int, pollInterval: int)
      ensures this.url == url && this.reportInterval == reportInterval && this.pollInterval == pollInterval
      ensures pollCount == 0 && metrics == map[]
    {
      this.url := url;
      this.reportInterval := reportInterval;
      this.pollInterval := pollInterval;
      pollCount := 0;
      metrics := map[];
    }

    /** One pass of `metricHandler`: the 28 fixed keys and one more poll. */
    method MetricHandler(stats: string -> real, random: real)
      modifies this
      ensures metrics == PollWrites(old(metrics), stats, random)
      ensures pollCount == WrapAdd(old(pollCount), 1)
    {
      metrics := PollWrites(metrics, stats, random);
      pollCount := WrapAdd(pollCount, 1);
    }

    /** `retryGzipJSONRequest`: up to four POSTs; a POST without error ends the loop with its
        response; a failed POST whose status is not 502, 503, 504 or 429 ends it; otherwise
        the delay for that attempt is slept. It makes the same calls and returns the same
        result as the current agent's loop over `retry.WithRetry`. */
    method RetryGzipJSONRequest(attempts: nat -> Attempt)
      returns (lastResp: Option<Response>, lastErr: Option<TransportError>, ghost calls: nat, ghost waited: nat)
      requires FailuresAnswered(attempts)
      ensures calls == CallCount(attempts) && waited == Retry.Run(Failures(attempts), Retriable).waited
      ensures lastResp == attempts(CallCount(attempts) - 1).resp && lastErr == attempts(CallCount(attempts) - 1).err
    {
      ghost var op := Failures(attempts);
      var retriable := Retriable;
      ghost var failure: Option<AttemptFailure> := None;
      Retry.RunShape(op, retriable, 0, None, 0);
      lastResp := None;
      lastErr := None;
      waited := 0;
      var attempt := 0;
      while attempt < |Retry.RetryDelays|
        invariant 0 <= attempt <= |Retry.RetryDelays|
        invariant Retry.RunFrom(op, retriable, attempt, failure, waited) == Retry.Run(op, retriable)
        invariant attempt > 0 ==> failure.Some? && failure == op(attempt - 1)
        invariant attempt > 0 ==> lastResp == attempts(attempt - 1).resp && lastErr == attempts(attempt - 1).err
      {
        var a := attempts(attempt);
        if a.err.None? {
          return a.resp, None, attempt + 1, waited;
        }
        lastErr := a.err;
        lastResp := a.resp;
        failure := op(attempt);
        var code := a.resp.value.status;
        if !(code == StatusBadGateway || code == StatusServiceUnavailable || code == StatusGatewayTimeout || code == StatusTooManyRequests) {
          assert !retriable(failure.value);
          return lastResp, lastErr, attempt + 1, waited;
        }
        if Retry.RetryDelays[attempt] != 0 {
          waited := waited + Retry.RetryDelays[attempt];
        }
        attempt := attempt + 1;
      }
      calls := attempt;
    }

    /** `createBatchRequest`: an empty batch is an error without any request; otherwise
        the gzip body is posted with retries and the last error is returned. */
    method CreateBatchRequest(batch: seq<Metrics>, c: LegacyCodecs, attempts: nat -> Attempt)
      returns (err: Option<SendError>, body: Option<seq<uint8>>)
      requires FailuresAnswered(attempts)
      ensures LegacyPayload(batch, c).Failure? ==> err == Some(LegacyPayload(batch, c).error) && body.None?
      ensures LegacyPayload(batch, c).Success? ==>
        body == Some(LegacyPayload(batch, c).value)
        && var last := attempts(CallCount(attempts) - 1);
           err == (if last.err.Some? then Some(Transport(last.err.value)) else None)
    {
      var payload := LegacyPayload(batch, c);
      if payload.Failure? {
        return Some(payload.error), None;
      }
      var resp, e, calls, waited := this.RetryGzipJSONRequest(attempts);
      body := Some(payload.value);
      err := if e.Some? then Some(Transport(e.value)) else None;
    }

    /** One pass of `reportHandler`: the report batch of the snapshot, sent at once; an
        error is only logged. */
    method ReportTick(c: LegacyCodecs, attempts: nat -> Attempt) returns (batch: seq<Metrics>, logged: Option<SendError>)
      requires FailuresAnswered(attempts)
      ensures ReportBatch(batch, metrics, pollCount)
      ensures logged != Some(EmptyMetrics)
      ensures LegacyPayload(batch, c).Failure? ==> logged == Some(LegacyPayload(batch, c).error)
      ensures LegacyPayload(batch, c).Success? ==>
        var last := attempts(CallCount(attempts) - 1);
        logged == (if last.err.Some? then Some(Transport(last.err.value)) else None)
    {
      var gauges := GaugeRecords(metrics);
      batch := gauges + [CounterRecord(PollCountKey, pollCount)];
      assert batch[..|metrics|] == gauges;
      var body;
      logged, body := CreateBatchRequest(batch, c, attempts);
    }
  }
}
