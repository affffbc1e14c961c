/** The current agent (`internal/agent`): the snapshot under its mutex, the two collectors,
    the report tick that queues batches for the workers, and the shutdown sequence. Each
    method is the sequential effect of one locked section; goroutines, tickers and the
    worker pool are not modelled. */
module AgentCore {
  import opened Wrappers
  import opened Models
  import opened Snapshot
  import opened Sender

  /** What a report tick did with its batch. */
  datatype TickOutcome = Enqueued | Cancelled | QueueFull

  /** The observable steps of `gracefulShutdown`. */
  datatype ShutdownStep = CancelContext | WaitForTasks(finished: bool) | FlushFinalMetrics | CloseShutdown

  /** The batch of the final flush: the gauge snapshot, and the poll counter only when it
      is positive. */
  predicate FinalBatch(batch: seq<Metrics>, m: map<string, real>, pollCount: int64)
  {
    if pollCount > 0 then ReportBatch(batch, m, pollCount) else GaugeSnapshot(batch, m)
  }

  class Agent {
    const url: string
    const reportInterval: int
    const pollInterval: int
    const key: string
    const rateLimit: int
    /** Capacity of the `Tasks` channel. */
    const queueCapacity: int
    var pollCount: int64
    var metrics: map<string, real>
    /** Batches waiting in the `Tasks` channel, oldest first. */
    var tasks: seq<seq<Metrics>>
    var cancelled: bool
    var shutdownClosed: bool
    var steps: seq<ShutdownStep>

    /** `createAgent`. A negative capacity makes Go's channel allocation panic. */
    constructor(url: string, reportInterval: int, pollInterval: int, key: string, rateLimit: int)
      requires rateLimit >= 0
      ensures this.url == url && this.reportInterval == reportInterval && this.pollInterval == pollInterval
      ensures this.key == key && this.rateLimit == rateLimit
      ensures queueCapacity == 2 * rateLimit
      ensures pollCount == 0 && metrics == map[] && tasks == []
      ensures !cancelled && !shutdownClosed && steps == []
    {
      this.url := url;
      this.reportInterval := reportInterval;
      this.pollInterval := pollInterval;
      this.key := key;
      this.rateLimit := rateLimit;
      queueCapacity := rateLimit * 2;
      pollCount := 0;
      metrics := map[];
      tasks := [];
      cancelled := false;
      shutdownClosed := false;
      steps := [];
    }

    /** One pass of `collector`: the 28 fixed keys and one more poll. The loop has no
        cancellation exit, so a pass runs whether or not the agent was cancelled. */
    method Collect(stats: string -> real, random: real)
      modifies this
      ensures metrics == PollWrites(old(metrics), stats, random)
      ensures pollCount == WrapAdd(old(pollCount), 1)
      ensures tasks == old(tasks) && cancelled == old(cancelled) && shutdownClosed == old(shutdownClosed) && steps == old(steps)
    {
      metrics := PollWrites(metrics, stats, random);
      pollCount := WrapAdd(pollCount, 1);
    }

    /** One tick of `collectorAdv`: nothing once the agent is cancelled; otherwise the host
        readings, the CPU one only when there is one. The poll count is not touched. */
    method CollectAdv(total: real, free: real, cpuPercents: seq<real>)
      modifies this
      ensures cancelled ==> metrics == old(metrics)
      ensures !cancelled ==> metrics == AdvWrites(old(metrics), total, free, cpuPercents)
      ensures pollCount == old(pollCount) && tasks == old(tasks) && cancelled == old(cancelled)
      ensures shutdownClosed == old(shutdownClosed) && steps == old(steps)
    {
      if cancelled {
        return;
      }
      metrics := AdvWrites(metrics, total, free, cpuPercents);
    }

    /** One tick of `reportHandler`: nothing once cancelled; otherwise the report batch is
        built under the lock and queued for the workers. A full queue makes the Go code wait;
        the model reports it and queues nothing. */
    method ReportTick() returns (outcome: TickOutcome, ghost batch: seq<Metrics>)
      modifies this
      ensures cancelled ==> outcome == Cancelled
      ensures outcome == Enqueued <==> !cancelled && |old(tasks)| < queueCapacity
      ensures outcome == Enqueued ==> tasks == old(tasks) + [batch] && ReportBatch(batch, metrics, pollCount)
      ensures outcome != Enqueued ==> tasks == old(tasks)
      ensures metrics == old(metrics) && pollCount == old(pollCount) && cancelled == old(cancelled)
      ensures shutdownClosed == old(shutdownClosed) && steps == old(steps)
    {
      if cancelled {
        return Cancelled, [];
      }
      var gauges := GaugeRecords(metrics);
      var report := gauges + [CounterRecord(PollCountKey, pollCount)];
      assert report[..|metrics|] == gauges;
      if |tasks| >= queueCapacity {
        return QueueFull, report;
      }
      tasks := tasks + [report];
      return Enqueued, report;
    }

    /** `sendFinalMetrics`: nothing when the snapshot is empty and nothing was polled;
        otherwise the final batch is sent once if it is non-empty. A send failure is only
        logged: `logged` is that error. */
    method SendFinalMetrics(c: Codecs, attempts: nat -> Attempt) returns (sent: Option<seq<Metrics>>, logged: Option<SendError>)
      ensures sent.None? <==> |metrics| == 0 && pollCount <= 0
      ensures sent.None? ==> logged.None?
      ensures sent.Some? ==> sent.value != [] && FinalBatch(sent.value, metrics, pollCount)
      ensures sent.Some? ==> logged == SendOutcome(sent.value, key, c, attempts) && logged != Some(EmptyMetrics)
    {
      if |metrics| == 0 && pollCount == 0 {
        return None, None;
      }
      var batch := GaugeRecords(metrics);
      if pollCount > 0 {
        var gauges := batch;
        batch := batch + [CounterRecord(PollCountKey, pollCount)];
        assert batch[..|metrics|] == gauges;
      }
      if |batch| > 0 {
        var err, request, calls := CreateBatchRequest(batch, key, c, attempts);
        return Some(batch), err;
      }
      return None, None;
    }

    /** `gracefulShutdown`: cancel, wait for the tasks or the 10-second timeout
        (`tasksFinished` says which came first), flush the final metrics, close the
        shutdown channel, in that order. The flush result is not returned. */
    method GracefulShutdown(tasksFinished: bool, c: Codecs, attempts: nat -> Attempt) returns (flushed: Option<seq<Metrics>>)
      modifies this
      ensures steps == old(steps) + [CancelContext, WaitForTasks(tasksFinished), FlushFinalMetrics, CloseShutdown]
      ensures cancelled && shutdownClosed
      ensures metrics == old(metrics) && pollCount == old(pollCount) && tasks == old(tasks)
      ensures flushed.None? <==> |metrics| == 0 && pollCount <= 0
      ensures flushed.Some? ==> FinalBatch(flushed.value, metrics, pollCount)
    {
      cancelled := true;
      steps := steps + [CancelContext];
      steps := steps + [WaitForTasks(tasksFinished)];
      var logged;
      flushed, logged := SendFinalMetrics(c, attempts);
      steps := steps + [FlushFinalMetrics];
      shutdownClosed := true;
      steps := steps + [CloseShutdown];
    }
  }

  /** The final batch is never empty when it is sent, and it carries the poll counter
      exactly when the count is positive. */
  lemma FinalBatchShape(batch: seq<Metrics>, m: map<string, real>, pollCount: int64)
    requires FinalBatch(batch, m, pollCount)
    ensures |batch| == |m| + (if pollCount > 0 then 1 else 0)
    ensures (exists i :: 0 <= i < |batch| && batch[i].id == PollCountKey && batch[i].mtype == CounterType) ==> pollCount > 0
  {
    if pollCount <= 0 {
      if exists i :: 0 <= i < |batch| && batch[i].id == PollCountKey && batch[i].mtype == CounterType {
        var i :| 0 <= i < |batch| && batch[i].id == PollCountKey && batch[i].mtype == CounterType;
        assert batch[i] == GaugeRecord(batch[i].id, m[batch[i].id]);
      }
    }
  }
}
