/** The agent's snapshot of gauge readings (`Metrics map[string]float64`) and the batches
    built from it. The runtime statistics, the random value and the host readings are
    parameters: `stats(k)` is the runtime field named `k` as a float64. */
module Snapshot {
  import opened Wrappers
  import opened Models
  import opened Strings
  import opened Store

  /** The runtime fields the collector copies, under their Go field names (listed by
      `KeyCode`, so that their distinctness is a matter of comparing numbers). */
  const RuntimeKeys: seq<string> := ["Sys", "Alloc", "Frees", "GCSys", "NumGC", "LastGC", "NextGC", "HeapSys",
    "Lookups", "Mallocs", "HeapIdle", "MSpanSys", "OtherSys", "StackSys", "HeapAlloc", "HeapInuse", "MCacheSys",
    "MSpanInuse", "StackInuse", "TotalAlloc", "BuckHashSys", "HeapObjects", "MCacheInuse", "NumForcedGC",
    "HeapReleased", "PauseTotalNs", "GCCPUFraction"]

  const RandomValueKey := "RandomValue"

  /** Every key one collector pass writes. */
  const CollectorKeys: seq<string> := RuntimeKeys + [RandomValueKey]

  const TotalMemoryKey := "TotalMemory"
  const FreeMemoryKey := "FreeMemory"
  const CPUKey := "CPUutilization1"

  /** Every key the host-statistics collector may write. */
  const AdvKeys: seq<string> := [TotalMemoryKey, FreeMemoryKey, CPUKey]

  const PollCountKey := "PollCount"

  lemma {:induction false} DistinctCount<T>(s: seq<T>)
    requires NoDuplicates(s)
    ensures |set x | x in s| == |s|
  {
    if s != [] {
      var t := s[..|s| - 1];
      assert NoDuplicates(t);
      DistinctCount(t);
      assert (set x | x in s) == (set x | x in t) + {s[|s| - 1]};
      assert s[|s| - 1] !in (set x | x in t);
    }
  }

  /** A fingerprint of a key: its length, first and last character. Equal keys have equal
      fingerprints. */
  function KeyCode(s: string): int
  {
    if s == [] then 0 else |s| * 65536 + s[0] as int * 256 + s[|s| - 1] as int
  }

  /** Keys whose fingerprints strictly increase along the sequence are pairwise distinct. */
  lemma {:induction false} IncreasingCodesDistinct(s: seq<string>)
    requires forall j :: 0 <= j < |s| - 1 ==> KeyCode(s[j]) < KeyCode(s[j + 1])
    ensures NoDuplicates(s)
  {
    forall i, j | 0 <= i < j < |s|
      ensures KeyCode(s[i]) < KeyCode(s[j])
    {
      var m := i + 1;
      while m < j
        invariant i < m <= j
        invariant KeyCode(s[i]) < KeyCode(s[m])
      {
        m := m + 1;
      }
    }
  }

  lemma RandomKeyFresh()
    ensures RandomValueKey !in RuntimeKeys
  {
    assert forall j :: 0 <= j < |RuntimeKeys| ==> KeyCode(RuntimeKeys[j]) != KeyCode(RandomValueKey);
  }

  /** The runtime keys are listed in increasing order of fingerprint. */
  lemma RuntimeKeysIncreasing()
    ensures forall j :: 0 <= j < |RuntimeKeys| - 1 ==> KeyCode(RuntimeKeys[j]) < KeyCode(RuntimeKeys[j + 1])
  {
  }

  /** A value not yet in a list without duplicates can be appended without creating one. */
  lemma AppendFresh<T>(s: seq<T>, x: T)
    requires NoDuplicates(s) && x !in s
    ensures NoDuplicates(s + [x])
  {
    var t := s + [x];
    forall i, j | 0 <= i < j < |t|
      ensures t[i] != t[j]
    {
      assert t[i] == s[i];
      if j < |s| {
        assert t[j] == s[j];
      }
    }
  }

  /** The collector writes 28 distinct keys: 27 runtime fields and the random value. */
  lemma CollectorKeyCount()
    ensures NoDuplicates(CollectorKeys)
    ensures |set k | k in CollectorKeys| == 28
  {
    RuntimeKeysIncreasing();
    IncreasingCodesDistinct(RuntimeKeys);
    RandomKeyFresh();
    AppendFresh(RuntimeKeys, RandomValueKey);
    DistinctCount(CollectorKeys);
  }

  /** The two collectors never write the same key. */
  lemma CollectorsDisjoint()
    ensures forall k :: k in AdvKeys ==> k !in CollectorKeys
  {
  }

  /** One collector pass over the snapshot: the 28 fixed keys are (re)written, every other
      key keeps its reading. */
  function PollWrites(m: map<string, real>, stats: string -> real, random: real): (r: map<string, real>)
    ensures r.Keys == m.Keys + (set k | k in CollectorKeys)
    ensures forall k :: k in RuntimeKeys ==> r[k] == stats(k)
    ensures r[RandomValueKey] == random
    ensures forall k :: k in m && k !in CollectorKeys ==> r[k] == m[k]
  {
    RandomKeyFresh();
    (m + map k | k in RuntimeKeys :: stats(k))[RandomValueKey := random]
  }

  /** One host-statistics tick: total and free memory are written, the CPU reading only
      when the list of readings is non-empty; every other key keeps its reading. */
  function AdvWrites(m: map<string, real>, total: real, free: real, cpuPercents: seq<real>): (r: map<string, real>)
    ensures r.Keys == m.Keys + {TotalMemoryKey, FreeMemoryKey} + (if |cpuPercents| > 0 then {CPUKey} else {})
    ensures r[TotalMemoryKey] == total && r[FreeMemoryKey] == free
    ensures |cpuPercents| > 0 ==> r[CPUKey] == cpuPercents[0]
    ensures |cpuPercents| == 0 ==> Get(r, CPUKey) == Get(m, CPUKey)
    ensures forall k :: k in m && k !in AdvKeys ==> r[k] == m[k]
  {
    var t := m[TotalMemoryKey := total][FreeMemoryKey := free];
    if |cpuPercents| > 0 then t[CPUKey := cpuPercents[0]] else t
  }

  /** A host-statistics tick never disturbs what the runtime collector wrote. */
  lemma AdvKeepsCollectorReadings(m: map<string, real>, stats: string -> real, random: real, total: real, free: real, cpuPercents: seq<real>)
    ensures var r := AdvWrites(PollWrites(m, stats, random), total, free, cpuPercents);
      (forall k :: k in RuntimeKeys ==> k in r && r[k] == stats(k)) && r[RandomValueKey] == random
  {
    CollectorsDisjoint();
  }

  /** `batch` holds one gauge record per snapshot entry, carrying its reading, each name
      once, in some order. */
  predicate GaugeSnapshot(batch: seq<Metrics>, m: map<string, real>)
  {
    |batch| == |m|
    && (forall i :: 0 <= i < |batch| ==> batch[i].id in m && batch[i] == GaugeRecord(batch[i].id, m[batch[i].id]))
    && (forall i, j :: 0 <= i < j < |batch| ==> batch[i].id != batch[j].id)
    && (forall k :: k in m ==> exists i :: 0 <= i < |batch| && batch[i].id == k)
  }

  /** The batch of a report tick: the gauge snapshot, then the poll counter. */
  predicate ReportBatch(batch: seq<Metrics>, m: map<string, real>, pollCount: int64)
  {
    |batch| == |m| + 1 && GaugeSnapshot(batch[..|m|], m) && batch[|m|] == CounterRecord(PollCountKey, pollCount)
  }

  /** The gauge loop of the report and final-flush code: one record per map entry, in map
      iteration order. */
  method GaugeRecords(m: map<string, real>) returns (batch: seq<Metrics>)
    ensures GaugeSnapshot(batch, m)
  {
    batch := [];
    var rest := m.Keys;
    while rest != {}
      invariant rest <= m.Keys
      invariant |batch| + |rest| == |m.Keys|
      invariant forall i :: 0 <= i < |batch| ==> batch[i].id in m && batch[i].id !in rest && batch[i] == GaugeRecord(batch[i].id, m[batch[i].id])
      invariant forall i, j :: 0 <= i < j < |batch| ==> batch[i].id != batch[j].id
      invariant forall k :: k in m && k !in rest ==> exists i :: 0 <= i < |batch| && batch[i].id == k
      decreases |rest|
    {
      var key :| key in rest;
      ghost var prev := batch;
      batch := batch + [GaugeRecord(key, m[key])];
      assert forall i :: 0 <= i < |prev| ==> batch[i] == prev[i];
      assert batch[|prev|].id == key;
      rest := rest - {key};
    }
    assert |m.Keys| == |m|;
  }

  /** After a collector pass the next report carries at least 29 records. */
  lemma ReportAfterPollIsLarge(m: map<string, real>, stats: string -> real, random: real, batch: seq<Metrics>, pollCount: int64)
    requires ReportBatch(batch, PollWrites(m, stats, random), pollCount)
    ensures |batch| >= 29
  {
    var w := PollWrites(m, stats, random);
    HoldsCollectorKeys(w);
    assert |batch| == |w| + 1;
  }

  /** A map that has every collector key has at least as many entries as there are keys. */
  lemma HoldsCollectorKeys(w: map<string, real>)
    requires (set k | k in CollectorKeys) <= w.Keys
    ensures |w| >= 28
  {
    CollectorKeyCount();
    var ks := set k | k in CollectorKeys;
    assert |ks| <= |w.Keys| by {
      SubsetCard(ks, w.Keys);
    }
    assert |w.Keys| == |w|;
  }

  lemma SubsetCard(a: set<string>, b: set<string>)
    requires a <= b
    ensures |a| <= |b|
  {
    assert b == a + (b - a);
  }

  /** In a batch of gauge records taken from `m`, the last gauge for a name is its reading
      when the name occurs, and nothing otherwise. */
  lemma {:induction false} LastGaugeOfRecords(ms: seq<Metrics>, m: map<string, real>, k: string)
    requires forall i :: 0 <= i < |ms| ==> ms[i].id in m && ms[i] == GaugeRecord(ms[i].id, m[ms[i].id])
    ensures (exists i :: 0 <= i < |ms| && ms[i].id == k) ==> LastGauge(ms, k) == Some(m[k])
    ensures (forall i :: 0 <= i < |ms| ==> ms[i].id != k) ==> LastGauge(ms, k) == None
  {
    if ms != [] {
      var init := ms[..|ms| - 1];
      LastGaugeOfRecords(init, m, k);
      if ms[|ms| - 1].id != k {
        if exists i :: 0 <= i < |ms| && ms[i].id == k {
          var i :| 0 <= i < |ms| && ms[i].id == k;
          assert init[i].id == k;
        }
      }
    }
  }

  /** Delivered to the server, a report leaves every snapshot reading in the gauge table,
      whichever backend stores it, and touches no other gauge. The poll counter differs:
      the memory backend stores the count as sent, the SQL backends add it to the total
      they already hold. */
  lemma ReportStoresSnapshot(s: Store, batch: seq<Metrics>, m: map<string, real>, pollCount: int64, k: string)
    requires ReportBatch(batch, m, pollCount)
    ensures Get(ApplyBatchReplace(s, batch).gauges, k) == Override(Get(m, k), Get(s.gauges, k))
    ensures ApplyBatchAdd(s, batch).Some? ==>
      Get(ApplyBatchAdd(s, batch).value.gauges, k) == Override(Get(m, k), Get(s.gauges, k))
    ensures Get(ApplyBatchReplace(s, batch).counters, PollCountKey) == Some(pollCount)
    ensures ApplyBatchAdd(s, batch).Some? ==>
      AsInt(Get(ApplyBatchAdd(s, batch).value.counters, PollCountKey))
        == Some((if PollCountKey in s.counters then s.counters[PollCountKey] as int else 0) + pollCount as int)
  {
    ReportPollCount(s, batch, m, pollCount);
    var gauges := batch[..|m|];
    LastGaugeOfRecords(gauges, m, k);
    assert batch[..|batch| - 1] == gauges;
    assert LastGauge(batch, k) == LastGauge(gauges, k);
    if k in m {
      var i :| 0 <= i < |gauges| && gauges[i].id == k;
    }
    BatchReplaceLastWins(s, batch, k);
    if ApplyBatchAdd(s, batch).Some? {
      BatchAddSums(s, batch, k);
    }
  }

  /** The poll counter of a report, in both batch semantics. */
  lemma ReportPollCount(s: Store, batch: seq<Metrics>, m: map<string, real>, pollCount: int64)
    requires ReportBatch(batch, m, pollCount)
    ensures Get(ApplyBatchReplace(s, batch).counters, PollCountKey) == Some(pollCount)
    ensures ApplyBatchAdd(s, batch).Some? ==>
      AsInt(Get(ApplyBatchAdd(s, batch).value.counters, PollCountKey))
        == Some((if PollCountKey in s.counters then s.counters[PollCountKey] as int else 0) + pollCount as int)
  {
    var gauges := batch[..|m|];
    assert batch[..|batch| - 1] == gauges;
    assert !TouchesCounter(gauges, PollCountKey) by {
      forall i | 0 <= i < |gauges|
        ensures !SetsCounter(gauges[i])
      {
        assert gauges[i] == GaugeRecord(gauges[i].id, m[gauges[i].id]);
      }
    }
    UntouchedSumIsZero(gauges, PollCountKey);
    BatchReplaceLastWins(s, batch, PollCountKey);
    if ApplyBatchAdd(s, batch).Some? {
      BatchAddSums(s, batch, PollCountKey);
    }
  }

  /** The agent never resets `PollCount` after a report, so a SQL server adds the running
      count at every report: two reports counting p1 and then p2 polls leave p1 + p2 on a
      server that had no poll counter, where the memory backend holds p2. */
  lemma SqlPollCountAddsReports(s: Store, b1: seq<Metrics>, m1: map<string, real>, p1: int64,
                                b2: seq<Metrics>, m2: map<string, real>, p2: int64)
    requires ReportBatch(b1, m1, p1) && ReportBatch(b2, m2, p2) && PollCountKey !in s.counters
    requires ApplyBatchAdd(s, b1).Some? && ApplyBatchAdd(ApplyBatchAdd(s, b1).value, b2).Some?
    ensures AsInt(Get(ApplyBatchAdd(ApplyBatchAdd(s, b1).value, b2).value.counters, PollCountKey)) == Some(p1 as int + p2 as int)
    ensures Get(ApplyBatchReplace(ApplyBatchReplace(s, b1), b2).counters, PollCountKey) == Some(p2)
  {
    ReportPollCount(s, b1, m1, p1);
    var t1 := ApplyBatchAdd(s, b1).value;
    ReportPollCount(t1, b2, m2, p2);
    ReportPollCount(ApplyBatchReplace(s, b1), b2, m2, p2);
  }
}
