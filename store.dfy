/** The state every storage backend keeps: a gauge map and a counter map, and what a batch
    of records does to it in the in-memory backend (replace) and in the SQL backends (add). */
module Store {
  import opened Wrappers
  import opened Models
  import opened Strings

  datatype Store = Store(gauges: map<string, real>, counters: map<string, int64>)

  const Empty := Store(map[], map[])

  function Get<V>(m: map<string, V>, k: string): (r: Option<V>)
    ensures r.Some? <==> k in m
    ensures r.Some? ==> r.value == m[k]
  {
    if k in m then Some(m[k]) else None
  }

  /** A record a batch applies to the gauge map: type "gauge" with a value. */
  predicate SetsGauge(m: Metrics)
  {
    m.mtype == GaugeType && m.value.Some?
  }

  /** A record a batch applies to the counter map: type "counter" with a delta. */
  predicate SetsCounter(m: Metrics)
  {
    m.mtype == CounterType && m.delta.Some?
  }

  // ---------------------------------------------------------------------------------------
  // Reference summaries of a batch, per metric name

  /** The value of the last gauge record for `name` in `ms`, if any. */
  function LastGauge(ms: seq<Metrics>, name: string): Option<real>
  {
    if ms == [] then None
    else
      var m := ms[|ms| - 1];
      if SetsGauge(m) && m.id == name then Some(m.value.value) else LastGauge(ms[..|ms| - 1], name)
  }

  /** The delta of the last counter record for `name` in `ms`, if any. */
  function LastCounter(ms: seq<Metrics>, name: string): Option<int64>
  {
    if ms == [] then None
    else
      var m := ms[|ms| - 1];
      if SetsCounter(m) && m.id == name then Some(m.delta.value) else LastCounter(ms[..|ms| - 1], name)
  }

  /** The mathematical sum of the deltas of the counter records for `name` in `ms`. */
  function CounterSum(ms: seq<Metrics>, name: string): int
  {
    if ms == [] then 0
    else
      var m := ms[|ms| - 1];
      CounterSum(ms[..|ms| - 1], name) + (if SetsCounter(m) && m.id == name then m.delta.value as int else 0)
  }

  /** Whether `ms` holds a counter record for `name`. */
  predicate TouchesCounter(ms: seq<Metrics>, name: string)
  {
    exists i :: 0 <= i < |ms| && SetsCounter(ms[i]) && ms[i].id == name
  }

  function Override<V>(newer: Option<V>, older: Option<V>): Option<V>
  {
    if newer.Some? then newer else older
  }

  // ---------------------------------------------------------------------------------------
  // In-memory semantics: both kinds replace (storage/memstorage.go BatchUpdate)

  function ApplyReplace(s: Store, m: Metrics): (t: Store)
    ensures !SetsGauge(m) && !SetsCounter(m) ==> t == s
  {
    if SetsGauge(m) then s.(gauges := s.gauges[m.id := m.value.value])
    else if SetsCounter(m) then s.(counters := s.counters[m.id := m.delta.value])
    else s
  }

  function ApplyBatchReplace(s: Store, ms: seq<Metrics>): Store
  {
    if ms == [] then s else ApplyReplace(ApplyBatchReplace(s, ms[..|ms| - 1]), ms[|ms| - 1])
  }

  /** In memory the last record for a name wins, for gauges and for counters alike. */
  lemma {:induction false} BatchReplaceLastWins(s: Store, ms: seq<Metrics>, name: string)
    ensures Get(ApplyBatchReplace(s, ms).gauges, name) == Override(LastGauge(ms, name), Get(s.gauges, name))
    ensures Get(ApplyBatchReplace(s, ms).counters, name) == Override(LastCounter(ms, name), Get(s.counters, name))
  {
    if ms != [] {
      BatchReplaceLastWins(s, ms[..|ms| - 1], name);
    }
  }

  // ---------------------------------------------------------------------------------------
  // SQL semantics: gauges replace, counters add (`counters.delta + $2`); a sum outside
  // BIGINT is a statement failure, modelled here as `None`.

  function AddCounter(s: Store, name: string, d: int64): (r: Option<Store>)
    ensures r.Some? ==> r.value.gauges == s.gauges && name in r.value.counters
    ensures r.Some? ==> r.value.counters[name] as int == (if name in s.counters then s.counters[name] as int else 0) + d as int
    ensures r.None? <==> name in s.counters && !InInt64Range(s.counters[name] as int + d as int)
  {
    if name !in s.counters then Some(s.(counters := s.counters[name := d]))
    else
      var sum := s.counters[name] as int + d as int;
      if InInt64Range(sum) then Some(s.(counters := s.counters[name := sum as int64])) else None
  }

  function ApplyAdd(s: Store, m: Metrics): (r: Option<Store>)
    ensures !SetsGauge(m) && !SetsCounter(m) ==> r == Some(s)
  {
    if SetsGauge(m) then Some(s.(gauges := s.gauges[m.id := m.value.value]))
    else if SetsCounter(m) then AddCounter(s, m.id, m.delta.value)
    else Some(s)
  }

  function ApplyBatchAdd(s: Store, ms: seq<Metrics>): Option<Store>
  {
    if ms == [] then Some(s)
    else match ApplyBatchAdd(s, ms[..|ms| - 1])
      case None => None
      case Some(t) => ApplyAdd(t, ms[|ms| - 1])
  }

  function TotalOf(s: Store, ms: seq<Metrics>, name: string): Option<int>
  {
    if name in s.counters || TouchesCounter(ms, name)
    then Some((if name in s.counters then s.counters[name] as int else 0) + CounterSum(ms, name))
    else None
  }

  function AsInt(v: Option<int64>): Option<int>
  {
    if v.Some? then Some(v.value as int) else None
  }

  /** In SQL a successful batch leaves every gauge at its last value and every counter at
      its old total (0 if new) plus the sum of its deltas in the batch. */
  lemma {:induction false} UntouchedSumIsZero(ms: seq<Metrics>, name: string)
    requires !TouchesCounter(ms, name)
    ensures CounterSum(ms, name) == 0
  {
    if ms != [] {
      UntouchedSumIsZero(ms[..|ms| - 1], name);
    }
  }

  lemma TouchesLast(ms: seq<Metrics>, name: string)
    requires ms != []
    ensures TouchesCounter(ms, name) <==>
      TouchesCounter(ms[..|ms| - 1], name) || (SetsCounter(ms[|ms| - 1]) && ms[|ms| - 1].id == name)
  {
    var init := ms[..|ms| - 1];
    if TouchesCounter(ms, name) && !(SetsCounter(ms[|ms| - 1]) && ms[|ms| - 1].id == name) {
      var i :| 0 <= i < |ms| && SetsCounter(ms[i]) && ms[i].id == name;
      assert init[i] == ms[i];
    }
    if TouchesCounter(init, name) {
      var i :| 0 <= i < |init| && SetsCounter(init[i]) && init[i].id == name;
      assert ms[i] == init[i];
    }
  }

  /** In SQL a successful batch leaves every gauge at its last value and every counter at
      its old total (0 if new) plus the sum of its deltas in the batch. */
  lemma {:induction false} BatchAddSums(s: Store, ms: seq<Metrics>, name: string)
    requires ApplyBatchAdd(s, ms).Some?
    ensures Get(ApplyBatchAdd(s, ms).value.gauges, name) == Override(LastGauge(ms, name), Get(s.gauges, name))
    ensures AsInt(Get(ApplyBatchAdd(s, ms).value.counters, name)) == TotalOf(s, ms, name)
  {
    if ms != [] {
      var init := ms[..|ms| - 1];
      var m := ms[|ms| - 1];
      BatchAddSums(s, init, name);
      TouchesLast(ms, name);
      if SetsCounter(m) && m.id == name && !TouchesCounter(init, name) {
        UntouchedSumIsZero(init, name);
      }
    }
  }

  /** A batch without counter records never fails on overflow, and then the two semantics
      agree. */
  lemma {:induction false} GaugeOnlyBatchesAgree(s: Store, ms: seq<Metrics>)
    requires forall i :: 0 <= i < |ms| ==> !SetsCounter(ms[i])
    ensures ApplyBatchAdd(s, ms) == Some(ApplyBatchReplace(s, ms))
  {
    if ms != [] {
      GaugeOnlyBatchesAgree(s, ms[..|ms| - 1]);
    }
  }

  /** The backends are not uniform: a counter repeated in one batch ends at its last delta
      in memory and at the sum of its deltas in SQL. */
  lemma RepeatedCounterDiffers()
    ensures var ms := [Models.CounterRecord("c", 1), Models.CounterRecord("c", 2)];
      ApplyBatchReplace(Empty, ms).counters == map["c" := 2]
      && ApplyBatchAdd(Empty, ms) == Some(Store(map[], map["c" := 3]))
  {
    var ms := [Models.CounterRecord("c", 1), Models.CounterRecord("c", 2)];
    assert ms[..1] == [ms[0]];
    assert ms[..1][..0] == [];
    assert ApplyBatchAdd(Empty, ms[..1]) == Some(Store(map[], map["c" := 1]));
    assert map["c" := 1]["c" := 3 as int64] == map["c" := 3];
  }

  // ---------------------------------------------------------------------------------------
  // Listing the names of a map, each once (the `for name := range m` / `rows.Next` loops)

  method MapKeys<V>(m: map<string, V>) returns (keys: seq<string>)
    ensures (set k | k in keys) == m.Keys
    ensures NoDuplicates(keys)
    ensures |keys| == |m|
  {
    keys := [];
    var rest := m.Keys;
    while rest != {}
      invariant rest !! (set k | k in keys)
      invariant rest + (set k | k in keys) == m.Keys
      invariant NoDuplicates(keys)
      invariant |keys| + |rest| == |m.Keys|
      decreases |rest|
    {
      var k :| k in rest;
      keys := keys + [k];
      rest := rest - {k};
    }
    assert |m.Keys| == |m|;
  }
}
