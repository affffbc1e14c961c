/** Delivery of metric batches by the agent (`internal/agent/sender.go`): the payload
    pipeline, the retried POST and its status-code predicate. JSON encoding, RSA
    encryption, HMAC-SHA-256 and gzip are parameters; the HTTP exchange is given by its
    outcomes, `attempts(k)` being the response and transport error of the (k+1)-th POST. */
module Sender {
  import opened Wrappers
  import opened Models
  import opened Hex
  import opened Handlers
  import Retry

  datatype Response = Response(status: int)

  /** A transport error of the HTTP client; its content is never inspected. */
  datatype TransportError = TransportError(msg: string)

  datatype Attempt = Attempt(resp: Option<Response>, err: Option<TransportError>)

  /** A failed attempt as the retry predicate sees it: the error, and the response the
      same attempt stored in `lastResp`. */
  datatype AttemptFailure = AttemptFailure(err: TransportError, resp: Option<Response>)

  const StatusTooManyRequests := 429
  const StatusBadGateway := 502
  const StatusServiceUnavailable := 503
  const StatusGatewayTimeout := 504

  /** The status codes after which another attempt is made. */
  const RetriableStatuses: set<int> := {StatusBadGateway, StatusServiceUnavailable, StatusGatewayTimeout, StatusTooManyRequests}

  /** The retry predicate: never for a nil error; with a response, only for the statuses
      above; without one, always. */
  function IsRetriableHTTP(err: Option<TransportError>, lastResp: Option<Response>): (r: bool)
    ensures err.None? ==> !r
    ensures err.Some? && lastResp.Some? ==> (r <==> lastResp.value.status in RetriableStatuses)
    ensures err.Some? && lastResp.None? ==> r
  {
    if err.None? then false
    else if lastResp.Some? then
      var code := lastResp.value.status;
      code == StatusBadGateway || code == StatusServiceUnavailable || code == StatusGatewayTimeout || code == StatusTooManyRequests
    else true
  }

  function Retriable(f: AttemptFailure): bool
  {
    IsRetriableHTTP(Some(f.err), f.resp)
  }

  /** The outcomes of the POSTs as the retry engine sees them. */
  function Failures(attempts: nat -> Attempt): nat -> Option<AttemptFailure>
  {
    (k: nat) => if attempts(k).err.Some? then Some(AttemptFailure(attempts(k).err.value, attempts(k).resp)) else None
  }

  /** The number of POSTs the retried request makes. */
  function CallCount(attempts: nat -> Attempt): (n: nat)
    ensures 1 <= n <= Retry.MaxAttempts
    ensures Retry.RetriedUpTo(Failures(attempts), Retriable, 0, n - 1)
    ensures n < Retry.MaxAttempts ==> attempts(n - 1).err.None? || !IsRetriableHTTP(attempts(n - 1).err, attempts(n - 1).resp)
  {
    Retry.RunShape(Failures(attempts), Retriable, 0, None, 0);
    Retry.Run(Failures(attempts), Retriable).attempts
  }

  /** `retryGzipJSONRequest`: the POST retried by `retry.WithRetry`; the result is the
      response and error of the last POST made. */
  method RetryGzipJSONRequest(attempts: nat -> Attempt) returns (lastResp: Option<Response>, err: Option<TransportError>, calls: nat)
    ensures calls == CallCount(attempts)
    ensures lastResp == attempts(calls - 1).resp && err == attempts(calls - 1).err
  {
    var op := Failures(attempts);
    var retriable := Retriable;
    var e, n, waited := Retry.WithRetry(op, retriable);
    Retry.RunShape(op, retriable, 0, None, 0);
    calls := n;
    lastResp := attempts(n - 1).resp;
    err := attempts(n - 1).err;
  }

  /** A first POST without a transport error is the only one, whatever its status. */
  lemma CleanFirstAttemptIsFinal(attempts: nat -> Attempt)
    requires attempts(0).err.None?
    ensures CallCount(attempts) == 1
  {
    Retry.FirstSuccessStops(Failures(attempts), Retriable, 0);
  }

  /** A failed POST answered with a status outside the retriable ones is not repeated. */
  lemma RejectedRequestNotRepeated(attempts: nat -> Attempt)
    requires attempts(0).err.Some? && attempts(0).resp.Some? && attempts(0).resp.value.status !in RetriableStatuses
    ensures CallCount(attempts) == 1
  {
    Retry.NonRetriableStops(Failures(attempts), Retriable, 0);
  }

  /** A failed POST answered 502, 503, 504 or 429, or not answered at all, is repeated. */
  lemma GatewayErrorRepeated(attempts: nat -> Attempt)
    requires attempts(0).err.Some?
    requires attempts(0).resp.None? || attempts(0).resp.value.status in RetriableStatuses
    ensures CallCount(attempts) >= 2
  {
  }

  /** What the resty v2 client returns for one POST: always a response, and with a
      transport error one whose status is 0. An HTTP error status comes without an error. */
  predicate RestyOutcome(a: Attempt)
  {
    a.resp.Some? && (a.err.Some? ==> a.resp.value.status == 0)
  }

  /** With the outcomes the HTTP client produces, the request is posted once: a reply with
      any status carries no error, and status 0 after a transport error is not retriable. */
  lemma RestyOutcomesNeverRetried(attempts: nat -> Attempt)
    requires RestyOutcome(attempts(0))
    ensures CallCount(attempts) == 1
  {
    if attempts(0).err.None? {
      CleanFirstAttemptIsFinal(attempts);
    } else {
      RejectedRequestNotRepeated(attempts);
    }
  }

  datatype SendError = EmptyMetrics | MarshalError | EncryptError | CompressError | Transport(err: TransportError)

  /** The POST the agent makes: route, gzip body and the optional `HashSHA256` header. */
  datatype Request = Request(route: string, body: seq<uint8>, hashHeader: Option<string>)

  /** The foreign encoders of the pipeline; `None` is an error. */
  datatype Codecs = Codecs(
    marshal: seq<Metrics> -> Option<seq<uint8>>,
    encrypt: seq<uint8> -> Option<seq<uint8>>,
    hmac: (string, seq<uint8>) -> seq<uint8>,
    compress: seq<uint8> -> Option<seq<uint8>>)

  const BatchRoute := "/updates/"

  /** The request `createBatchRequest` builds: JSON, then encryption, then the signature
      over the encrypted bytes, then gzip. */
  function BatchPayload(batch: seq<Metrics>, key: string, c: Codecs): (r: Result<Request, SendError>)
    ensures r == Failure(EmptyMetrics) <==> batch == []
    ensures r.Success? ==>
      c.marshal(batch).Some? && c.encrypt(c.marshal(batch).value).Some?
      && var encrypted := c.encrypt(c.marshal(batch).value).value;
         Some(r.value.body) == c.compress(encrypted)
         && r.value.route == BatchRoute
         && (r.value.hashHeader.Some? <==> key != "")
         && (key != "" ==> r.value.hashHeader == Some(EncodeToString(c.hmac(key, encrypted))))
    ensures batch != [] && c.marshal(batch).None? ==> r == Failure(MarshalError)
  {
    if batch == [] then Failure(EmptyMetrics)
    else match c.marshal(batch)
      case None => Failure(MarshalError)
      case Some(json) =>
        match c.encrypt(json)
        case None => Failure(EncryptError)
        case Some(encrypted) =>
          var hash := BodySignature(encrypted, key, c.hmac);
          match c.compress(encrypted)
          case None => Failure(CompressError)
          case Some(body) => Success(Request(BatchRoute, body, if hash.Some? then Some(EncodeToString(hash.value)) else None))
  }

  /** The error `createBatchRequest` returns. */
  function SendOutcome(batch: seq<Metrics>, key: string, c: Codecs, attempts: nat -> Attempt): (r: Option<SendError>)
    ensures BatchPayload(batch, key, c).Failure? ==> r == Some(BatchPayload(batch, key, c).error)
    ensures BatchPayload(batch, key, c).Success? ==>
      (r.None? <==> attempts(CallCount(attempts) - 1).err.None?)
    ensures r == Some(EmptyMetrics) <==> batch == []
  {
    match BatchPayload(batch, key, c)
    case Failure(e) => Some(e)
    case Success(_) =>
      var last := attempts(CallCount(attempts) - 1);
      if last.err.Some? then Some(Transport(last.err.value)) else None
  }

  /** Delivery depends only on the transport error: a first POST without one delivers the
      batch, whatever status it answered. */
  lemma DeliveredIgnoresStatus(batch: seq<Metrics>, key: string, c: Codecs, attempts: nat -> Attempt)
    requires BatchPayload(batch, key, c).Success? && attempts(0).err.None?
    ensures SendOutcome(batch, key, c, attempts) == None
  {
    CleanFirstAttemptIsFinal(attempts);
  }

  /** `createBatchRequest`: an empty batch is refused before anything is sent; otherwise the
      request built by the pipeline is posted with retries. `sent` is the request posted. */
  method CreateBatchRequest(batch: seq<Metrics>, key: string, c: Codecs, attempts: nat -> Attempt)
    returns (err: Option<SendError>, sent: Option<Request>, calls: nat)
    ensures err == SendOutcome(batch, key, c, attempts)
    ensures BatchPayload(batch, key, c).Failure? ==> sent.None? && calls == 0
    ensures BatchPayload(batch, key, c).Success? ==> sent == Some(BatchPayload(batch, key, c).value) && calls == CallCount(attempts)
  {
    var payload := BatchPayload(batch, key, c);
    if payload.Failure? {
      return Some(payload.error), None, 0;
    }
    var resp, e, n := RetryGzipJSONRequest(attempts);
    calls := n;
    sent := Some(payload.value);
    if e.None? {
      return None, sent, calls;
    }
    err := Some(Transport(e.value));
  }
}
