/** The audit trail (`internal/audit`): the client address of a request, the event sent
    for an update, and the publisher's list of observers. The clock, the address splitter
    and the observers' own delivery are not modelled: the time and `net.SplitHostPort` are
    parameters. */
module Audit {
  import opened Wrappers
  import opened Strings

  /** An audit sink: a file the events are appended to, or a URL they are posted to. */
  datatype Observer = FileSink(path: string) | HTTPSink(url: string)

  datatype Event = Event(ts: int, metrics: seq<string>, ipAddress: string)

  /** The first comma-separated element of an `X-Forwarded-For` value, trimmed. */
  function FirstForwarded(xff: string): (r: string)
    ensures r == TrimSpace(Split(xff, ',')[0])
    ensures ',' !in xff ==> r == TrimSpace(xff)
  {
    var parts := Split(xff, ',');
    assert ',' !in xff ==> IndexOf(xff, ',') == |xff|;
    TrimSpace(parts[0])
  }

  /** `clientIP`: a non-blank `X-Real-IP` wins; then the first `X-Forwarded-For` element;
      then the host part of the remote address when it splits with a non-empty host;
      otherwise the remote address verbatim. `splitHostPort` yields the host, or `None`
      when the address does not split. */
  function ClientIP(xRealIP: string, xForwardedFor: string, remoteAddr: string, splitHostPort: string -> Option<string>): (r: string)
    ensures TrimSpace(xRealIP) != "" ==> r == TrimSpace(xRealIP)
    ensures TrimSpace(xRealIP) == "" && FirstForwarded(xForwardedFor) != "" ==> r == FirstForwarded(xForwardedFor)
    ensures TrimSpace(xRealIP) == "" && FirstForwarded(xForwardedFor) == "" ==>
      r == (if splitHostPort(remoteAddr).Some? && splitHostPort(remoteAddr).value != "" then splitHostPort(remoteAddr).value else remoteAddr)
  {
    var ip := TrimSpace(xRealIP);
    if ip != "" then ip
    else
      var first := if xForwardedFor != "" then FirstForwarded(xForwardedFor) else "";
      if first != "" then first
      else
        match splitHostPort(remoteAddr)
        case Some(host) => if host != "" then host else remoteAddr
        case None => remoteAddr
  }

  /** The address chosen from a header never starts or ends with white space, and the
      chosen address is empty only when every source is. */
  lemma ClientIPShape(xRealIP: string, xForwardedFor: string, remoteAddr: string, splitHostPort: string -> Option<string>)
    ensures var r := ClientIP(xRealIP, xForwardedFor, remoteAddr, splitHostPort);
      (r == TrimSpace(xRealIP) || r == FirstForwarded(xForwardedFor)) ==> r == "" || (!IsSpace(r[0]) && !IsSpace(r[|r| - 1]))
    ensures remoteAddr != "" ==> ClientIP(xRealIP, xForwardedFor, remoteAddr, splitHostPort) != ""
  {
  }

  /** A request passed through proxies is attributed to the first address listed, and
      the later ones are never looked at. */
  lemma ForwardedChainUsesFirst(first: string, rest: string, remoteAddr: string, splitHostPort: string -> Option<string>)
    requires ',' !in first && TrimSpace(first) != ""
    ensures ClientIP("", first + "," + rest, remoteAddr, splitHostPort) == TrimSpace(first)
  {
    var xff := first + "," + rest;
    var i := IndexOf(xff, ',');
    assert xff[|first|] == ',';
    assert i == |first|;
    assert xff[..i] == first;
    assert TrimSpace("") == "";
  }

  /** `BuildEvent`: the time, the metric names unchanged, and the client address. */
  function BuildEvent(now: int, metricNames: seq<string>, xRealIP: string, xForwardedFor: string, remoteAddr: string,
                      splitHostPort: string -> Option<string>): (e: Event)
    ensures e.metrics == metricNames && e.ts == now
    ensures e.ipAddress == ClientIP(xRealIP, xForwardedFor, remoteAddr, splitHostPort)
  {
    Event(now, metricNames, ClientIP(xRealIP, xForwardedFor, remoteAddr, splitHostPort))
  }

  /** The observers that remain of a registration sequence, nil ones skipped. */
  function Registered(obs: seq<Option<Observer>>): (r: seq<Observer>)
    ensures |r| <= |obs|
    ensures forall o :: o in r <==> Some(o) in obs
  {
    if obs == [] then []
    else Registered(obs[..|obs| - 1]) + (if obs[|obs| - 1].Some? then [obs[|obs| - 1].value] else [])
  }

  /** Registration order is kept across any split of the registration sequence. */
  lemma {:induction false} RegisteredConcat(a: seq<Option<Observer>>, b: seq<Option<Observer>>)
    ensures Registered(a + b) == Registered(a) + Registered(b)
    decreases |b|
  {
    if b == [] {
      assert a + b == a;
    } else {
      var last := b[|b| - 1];
      var b0 := b[..|b| - 1];
      assert (a + b)[..|a + b| - 1] == a + b0;
      assert Registered(b) == Registered(b0) + (if last.Some? then [last.value] else []);
      RegisteredConcat(a, b0);
    }
  }

  class Publisher {
    var observers: seq<Observer>

    /** `NewPublisher`: no observers. */
    constructor()
      ensures observers == []
    {
      observers := [];
    }

    /** `Register`: a nil observer is ignored, any other is appended. */
    method Register(obs: Option<Observer>)
      modifies this
      ensures observers == old(observers) + Registered([obs])
      ensures obs.None? ==> observers == old(observers)
      ensures obs.Some? ==> observers == old(observers) + [obs.value]
    {
      if obs.None? {
        return;
      }
      observers := observers + [obs.value];
    }
  }
}
