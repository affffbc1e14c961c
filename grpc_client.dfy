/** The agent's gRPC transport (`internal/agent/grpc_client.go`): records converted to
    protobuf messages and sent in fixed-size chunks. The RPC itself is given by its
    outcome; the local address lookup is a parameter. */
module GrpcClient {
  import opened Wrappers
  import opened Models

  /** The protobuf metric type; proto3 enums are open, so other numbers can occur. */
  datatype PbType = GAUGE | COUNTER | UnknownPbType(number: int)

  /** A protobuf `Metric`: scalar fields, zero when unset. */
  datatype PbMetric = PbMetric(id: string, mtype: PbType, delta: int64, value: real)

  datatype RpcError = RpcError(msg: string)

  /** One `UpdateMetrics` call: the `x-real-ip` metadata and the messages. */
  datatype RpcCall = RpcCall(realIP: string, metrics: seq<PbMetric>)

  const DefaultBatchSize := 100

  /** The message for one record: gauge and counter map to their enum values, a missing
      value or delta becomes zero, any other type is dropped. */
  function ToProto(m: Metrics): (r: Option<PbMetric>)
    ensures r.Some? <==> m.mtype == GaugeType || m.mtype == CounterType
    ensures r.Some? ==> r.value.id == m.id
    ensures m.mtype == GaugeType ==> r.value.mtype == GAUGE && r.value.value == (if m.value.Some? then m.value.value else 0.0)
    ensures m.mtype == CounterType ==> r.value.mtype == COUNTER && r.value.delta == (if m.delta.Some? then m.delta.value else 0)
  {
    if m.mtype == GaugeType then Some(PbMetric(m.id, GAUGE, 0, if m.value.Some? then m.value.value else 0.0))
    else if m.mtype == CounterType then Some(PbMetric(m.id, COUNTER, if m.delta.Some? then m.delta.value else 0, 0.0))
    else None
  }

  /** The messages of a list of records, unknown types dropped, in input order. */
  function ProtoList(ms: seq<Metrics>): (r: seq<PbMetric>)
    ensures |r| <= |ms|
  {
    if ms == [] then []
    else
      var init := ProtoList(ms[..|ms| - 1]);
      match ToProto(ms[|ms| - 1])
      case Some(p) => init + [p]
      case None => init
  }

  /** The converted list is exactly the kept records, converted, in their input order:
      it is what an order-preserving filter-and-map gives. */
  lemma {:induction false} ProtoListKeepsOrder(a: seq<Metrics>, b: seq<Metrics>)
    ensures ProtoList(a + b) == ProtoList(a) + ProtoList(b)
    decreases |b|
  {
    if b == [] {
      assert a + b == a;
    } else {
      var init := b[..|b| - 1];
      assert (a + b)[..|a + b| - 1] == a + init;
      assert (a + b)[|a + b| - 1] == b[|b| - 1];
      ProtoListKeepsOrder(a, init);
    }
  }

  /** A list with no gauge or counter converts to nothing, and one where every record is
      a gauge or a counter loses none. */
  lemma {:induction false} ProtoListCounts(ms: seq<Metrics>)
    ensures (forall i :: 0 <= i < |ms| ==> ms[i].mtype != GaugeType && ms[i].mtype != CounterType) ==> ProtoList(ms) == []
    ensures (forall i :: 0 <= i < |ms| ==> ms[i].mtype == GaugeType || ms[i].mtype == CounterType) ==> |ProtoList(ms)| == |ms|
  {
    if ms != [] {
      ProtoListCounts(ms[..|ms| - 1]);
    }
  }

  /** The `x-real-ip` the client sends: the outbound address, or "unknown". */
  function RealIPHeader(localIP: string): string
  {
    if localIP == "" then "unknown" else localIP
  }

  /** What `SendMetrics` does: no RPC for an empty list or when every record is dropped;
      otherwise one RPC whose failure is returned. */
  function SendOutcome(ms: seq<Metrics>, localIP: string, rpc: Option<RpcError>): (r: (Option<RpcError>, Option<RpcCall>))
    ensures r.1.None? <==> ProtoList(ms) == []
    ensures r.1.Some? ==> r.1.value == RpcCall(RealIPHeader(localIP), ProtoList(ms)) && r.0 == rpc
    ensures r.1.None? ==> r.0.None?
  {
    var pb := ProtoList(ms);
    if pb == [] then (None, None) else (rpc, Some(RpcCall(RealIPHeader(localIP), pb)))
  }

  /** The conversion loop of `SendMetrics`. */
  method ConvertMetrics(ms: seq<Metrics>) returns (pb: seq<PbMetric>)
    ensures pb == ProtoList(ms)
  {
    pb := [];
    var i := 0;
    while i < |ms|
      invariant 0 <= i <= |ms|
      invariant pb == ProtoList(ms[..i])
    {
      var p := ToProto(ms[i]);
      assert ms[..i + 1][..i] == ms[..i];
      if p.Some? {
        pb := pb + [p.value];
      }
      i := i + 1;
    }
    assert ms[..i] == ms;
  }

  /** `SendMetrics`. `rpc` is the outcome of the call if one is made. */
  method SendMetrics(ms: seq<Metrics>, localIP: string, rpc: Option<RpcError>) returns (err: Option<RpcError>, call: Option<RpcCall>)
    ensures (err, call) == SendOutcome(ms, localIP, rpc)
    ensures ms == [] ==> err.None? && call.None?
  {
    if |ms| == 0 {
      return None, None;
    }
    var pb := ConvertMetrics(ms);
    if |pb| == 0 {
      return None, None;
    }
    call := Some(RpcCall(RealIPHeader(localIP), pb));
    err := rpc;
  }

  /** The chunks of `SendMetricsBatch`: consecutive slices of `size` records, the last one
      possibly shorter. */
  function Chunks<T>(ms: seq<T>, size: nat): (r: seq<seq<T>>)
    requires size > 0
    ensures forall j :: 0 <= j < |r| ==> 0 < |r[j]| <= size
    ensures forall j :: 0 <= j < |r| - 1 ==> |r[j]| == size
    decreases |ms|
  {
    if ms == [] then []
    else if |ms| <= size then [ms]
    else [ms[..size]] + Chunks(ms[size..], size)
  }

  function Concat<T>(parts: seq<seq<T>>): seq<T>
  {
    if parts == [] then [] else parts[0] + Concat(parts[1..])
  }

  /** The chunks put back together give the input. */
  lemma {:induction false} ChunksConcat<T>(ms: seq<T>, size: nat)
    requires size > 0
    ensures Concat(Chunks(ms, size)) == ms
    decreases |ms|
  {
    if ms == [] {
    } else if |ms| <= size {
      assert Concat(Chunks(ms, size)) == ms + Concat([]);
    } else {
      var rest := ms[size..];
      ChunksConcat(rest, size);
      var r := Chunks(ms, size);
      assert r[1..] == Chunks(rest, size);
      assert Concat(r) == ms[..size] + Concat(Chunks(rest, size));
      assert ms[..size] + rest == ms;
    }
  }

  /** There are ⌈n / size⌉ chunks: the fewest that hold n records. */
  lemma {:induction false} ChunksCount<T>(ms: seq<T>, size: nat)
    requires size > 0
    ensures (|Chunks(ms, size)| - 1) * size < |ms| <= |Chunks(ms, size)| * size
    decreases |ms|
  {
    if ms == [] {
    } else if |ms| <= size {
    } else {
      var rest := ms[size..];
      ChunksCount(rest, size);
      var n := |Chunks(rest, size)|;
      assert |Chunks(ms, size)| == n + 1;
      assert (n + 1) * size == n * size + size;
      assert (n - 1) * size + size == n * size;
    }
  }

  /** The first chunk of a non-empty list and what follows it. */
  lemma ChunksStep<T>(ms: seq<T>, size: nat, end: nat)
    requires size > 0 && ms != []
    requires end == if |ms| < size then |ms| else size
    ensures Chunks(ms, size)[0] == ms[..end]
    ensures Chunks(ms, size)[1..] == Chunks(ms[end..], size)
  {
    if |ms| <= size {
      assert ms[..end] == ms;
      assert ms[end..] == [];
    } else {
      assert Chunks(ms, size) == [ms[..size]] + Chunks(ms[size..], size);
    }
  }

  datatype BatchError = BatchFailed(number: nat, err: RpcError)

  /** The batch size actually used. */
  function EffectiveBatchSize(batchSize: int): (n: nat)
    ensures n > 0
    ensures batchSize <= 0 ==> n == DefaultBatchSize
    ensures batchSize > 0 ==> n == batchSize
  {
    if batchSize <= 0 then DefaultBatchSize else batchSize
  }

  /** The outcome of sending `chunks[k..]`, `rpcs(j)` being the RPC outcome of chunk j: the
      first chunk whose send fails ends the run with its 1-based number. */
  function BatchRun(chunks: seq<seq<Metrics>>, localIP: string, rpcs: nat -> Option<RpcError>, k: nat): (r: (Option<BatchError>, nat))
    requires k <= |chunks|
    ensures k <= r.1 <= |chunks|
    ensures r.0.None? ==> r.1 == |chunks|
    decreases |chunks| - k
  {
    if k == |chunks| then (None, k)
    else
      var (e, _) := SendOutcome(chunks[k], localIP, rpcs(k));
      if e.Some? then (Some(BatchFailed(k + 1, e.value)), k + 1)
      else BatchRun(chunks, localIP, rpcs, k + 1)
  }

  /** A run stops at its first failing chunk: the chunks before it went through and none
      after it was sent. */
  lemma {:induction false} BatchRunStopsAtFirstFailure(chunks: seq<seq<Metrics>>, localIP: string, rpcs: nat -> Option<RpcError>, k: nat)
    requires k <= |chunks|
    ensures var (e, sent) := BatchRun(chunks, localIP, rpcs, k);
      (forall j :: k <= j < sent && (e.Some? ==> j < sent - 1) ==> SendOutcome(chunks[j], localIP, rpcs(j)).0.None?)
      && (e.Some? ==> sent >= 1 && e.value.number == sent && SendOutcome(chunks[sent - 1], localIP, rpcs(sent - 1)).0 == Some(e.value.err))
    decreases |chunks| - k
  {
    if k < |chunks| {
      var e := SendOutcome(chunks[k], localIP, rpcs(k)).0;
      BatchRunStep(chunks, localIP, rpcs, k, e);
      if e.None? {
        BatchRunStopsAtFirstFailure(chunks, localIP, rpcs, k + 1);
      }
    }
  }

  /** The chunk a loop starting at record `i` cuts next, and what is left after it. */
  lemma NextChunk<T>(ms: seq<T>, size: nat, i: nat, end: nat, chunks: seq<seq<T>>, k: nat)
    requires size > 0 && i < |ms| && end == (if i + size > |ms| then |ms| else i + size)
    requires k <= |chunks| && chunks[k..] == Chunks(ms[i..], size)
    ensures k < |chunks| && chunks[k] == ms[i..end]
    ensures chunks[k + 1..] == Chunks(ms[end..], size)
  {
    var rest := ms[i..];
    ChunksStep(rest, size, end - i);
    assert rest[..end - i] == ms[i..end];
    assert rest[end - i..] == ms[end..];
    assert chunks[k..][0] == chunks[k];
    assert chunks[k..][1..] == chunks[k + 1..];
  }

  /** One step of a run: a chunk that goes through passes the run on to the next. */
  lemma BatchRunStep(chunks: seq<seq<Metrics>>, localIP: string, rpcs: nat -> Option<RpcError>, k: nat, e: Option<RpcError>)
    requires k < |chunks| && e == SendOutcome(chunks[k], localIP, rpcs(k)).0
    ensures e.None? ==> BatchRun(chunks, localIP, rpcs, k) == BatchRun(chunks, localIP, rpcs, k + 1)
    ensures e.Some? ==> BatchRun(chunks, localIP, rpcs, k) == (Some(BatchFailed(k + 1, e.value)), k + 1)
  {
  }

  /** `SendMetricsBatch`: the chunks are sent in order until one fails. `sent` counts the
      chunks handed to `SendMetrics`. */
  method SendMetricsBatch(ms: seq<Metrics>, batchSize: int, localIP: string, rpcs: nat -> Option<RpcError>)
    returns (err: Option<BatchError>, sent: nat)
    ensures (err, sent) == BatchRun(Chunks(ms, EffectiveBatchSize(batchSize)), localIP, rpcs, 0)
  {
    var size := if batchSize <= 0 then DefaultBatchSize else batchSize;
    ghost var chunks := Chunks(ms, size);
    var i := 0;
    sent := 0;
    while i < |ms|
      invariant 0 <= i <= |ms|
      invariant sent <= |chunks|
      invariant chunks[sent..] == Chunks(ms[i..], size)
      invariant BatchRun(chunks, localIP, rpcs, sent) == BatchRun(chunks, localIP, rpcs, 0)
      decreases |ms| - i
    {
      var end := i + size;
      if end > |ms| {
        end := |ms|;
      }
      var batch := ms[i..end];
      NextChunk(ms, size, i, end, chunks, sent);
      var e, call := SendMetrics(batch, localIP, rpcs(sent));
      BatchRunStep(chunks, localIP, rpcs, sent, e);
      sent := sent + 1;
      if e.Some? {
        return Some(BatchFailed(sent, e.value)), sent;
      }
      i := end;
    }
    assert ms[i..] == [];
    return None, sent;
  }
}
