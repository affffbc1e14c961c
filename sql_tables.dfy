/** The two PostgreSQL tables as a `Store`, and one run of the batch transaction shared by
    both SQL backends: `BEGIN`, one upsert per applicable record, `COMMIT`, and a rollback
    of everything on the first failure.

    Which step of a run fails is given by a `TxFault`; an overflowing counter sum fails by
    itself (BIGINT arithmetic raises `numeric_value_out_of_range`). A `COMMIT` whose
    connection breaks after the server committed (SQLSTATE 08006 or 08007, both retriable)
    reports an error although the tables changed, and the retry then runs the batch again
    on the committed tables. */
module SqlTables {
  import opened Wrappers
  import opened Models
  import opened Store
  import opened DbErrors
  import Retry

  datatype TxFault =
    | TxOk
    | BeginFails(err: DbError)
    | ExecFails(index: nat, err: DbError)   // the statement for record `index` fails
    | CommitFails(err: DbError)             // the server rolled the transaction back
    | CommitAckLost(err: DbError)           // the server committed, the client saw `err`

  /** One record inside the transaction: gauges `ON CONFLICT ... SET value = $2`, counters
      `ON CONFLICT ... SET delta = counters.delta + $2`; other records issue no statement. */
  function Exec(t: Store, m: Metrics, j: nat, f: TxFault): (r: Result<Store, DbError>)
    ensures !SetsGauge(m) && !SetsCounter(m) ==> r == Success(t)
    ensures r.Success? ==> ApplyAdd(t, m) == Some(r.value)
  {
    if !SetsGauge(m) && !SetsCounter(m) then Success(t)
    else if f.ExecFails? && f.index == j then Failure(f.err)
    else match ApplyAdd(t, m)
      case None => Failure(PgError(NumericValueOutOfRange))
      case Some(u) => Success(u)
  }

  /** The statements of the transaction, in record order, up to the first failure. */
  function Statements(s: Store, ms: seq<Metrics>, f: TxFault): Result<Store, DbError>
  {
    if ms == [] then Success(s)
    else match Statements(s, ms[..|ms| - 1], f)
      case Failure(e) => Failure(e)
      case Success(t) => Exec(t, ms[|ms| - 1], |ms| - 1, f)
  }

  /** The whole transaction: the tables it would commit, or the error that rolled it back. */
  function Transaction(s: Store, ms: seq<Metrics>, f: TxFault): Result<Store, DbError>
  {
    if f.BeginFails? then Failure(f.err)
    else match Statements(s, ms, f)
      case Failure(e) => Failure(e)
      case Success(t) => if f.CommitFails? || f.CommitAckLost? then Failure(f.err) else Success(t)
  }

  /** The tables the server holds after one attempt on `t`: what it committed, even when
      the client never learnt of it; `t` again when the attempt was rolled back. */
  function AfterAttempt(t: Store, ms: seq<Metrics>, f: TxFault): Store
  {
    if f.BeginFails? || f.CommitFails? then t
    else match Statements(t, ms, f)
      case Failure(_) => t
      case Success(u) => u
  }

  /** The tables attempt `i` starts from: the result of the attempts before it. */
  function TablesBefore(s: Store, ms: seq<Metrics>, faults: nat -> TxFault, i: nat): Store
  {
    if i == 0 then s else AfterAttempt(TablesBefore(s, ms, faults, i - 1), ms, faults(i - 1))
  }

  /** No attempt among the first `n` lost the acknowledgement of its commit. */
  predicate NoAckLost(faults: nat -> TxFault, n: nat)
  {
    forall i: nat :: i < n ==> !faults(i).CommitAckLost?
  }

  function ErrorOf(r: Result<Store, DbError>): (e: Option<DbError>)
    ensures e.None? <==> r.Success?
  {
    if r.Success? then None else Some(r.error)
  }

  /** The operation handed to the retry loop: attempt i runs the transaction with fault
      `faults(i)` against the tables the earlier attempts left. */
  function TxAttempts(s: Store, ms: seq<Metrics>, faults: nat -> TxFault): nat -> Option<DbError>
  {
    (i: nat) => ErrorOf(Transaction(TablesBefore(s, ms, faults, i), ms, faults(i)))
  }

  /** A committed attempt leaves its transaction's tables; a failed one whose commit was not
      lost leaves the tables it found. */
  lemma AfterAttemptOutcome(t: Store, ms: seq<Metrics>, f: TxFault)
    ensures Transaction(t, ms, f).Success? ==> AfterAttempt(t, ms, f) == Transaction(t, ms, f).value
    ensures Transaction(t, ms, f).Failure? && !f.CommitAckLost? ==> AfterAttempt(t, ms, f) == t
    ensures f.CommitAckLost? && Statements(t, ms, f).Success? ==>
      Transaction(t, ms, f) == Failure(f.err) && Some(AfterAttempt(t, ms, f)) == ApplyBatchAdd(t, ms)
  {
    StatementsAgreeWithBatchAdd(t, ms, f);
  }

  /** An attempt that failed and whose commit, if it got that far, was not acknowledged-lost:
      the server rolled it back. */
  predicate RolledBack(t: Store, ms: seq<Metrics>, f: TxFault)
  {
    Transaction(t, ms, f).Failure? && !f.CommitAckLost?
  }

  /** Rolled-back attempts leave the tables as they were. */
  lemma {:induction false} RolledBackAttemptsChangeNothing(s: Store, ms: seq<Metrics>, faults: nat -> TxFault, n: nat)
    requires forall j: nat {:trigger TablesBefore(s, ms, faults, j)} :: j < n ==> RolledBack(TablesBefore(s, ms, faults, j), ms, faults(j))
    ensures TablesBefore(s, ms, faults, n) == s
  {
    if n > 0 {
      RolledBackAttemptsChangeNothing(s, ms, faults, n - 1);
      var t, f := TablesBefore(s, ms, faults, n - 1), faults(n - 1);
      assert RolledBack(t, ms, f);
      AfterAttemptOutcome(t, ms, f);
      assert TablesBefore(s, ms, faults, n) == AfterAttempt(t, ms, f);
    }
  }

  lemma {:induction false} StatementsFailurePersists(s: Store, ms: seq<Metrics>, k: nat, f: TxFault)
    requires k <= |ms| && Statements(s, ms[..k], f).Failure?
    ensures Statements(s, ms, f) == Statements(s, ms[..k], f)
  {
    if k < |ms| {
      var init := ms[..|ms| - 1];
      assert init[..k] == ms[..k];
      StatementsFailurePersists(s, init, k, f);
    } else {
      assert ms[..k] == ms;
    }
  }

  /** Faults only ever make the transaction fail: whatever it commits is the SQL semantics
      of the batch, and without faults it fails only on a BIGINT overflow. */
  lemma {:induction false} StatementsAgreeWithBatchAdd(s: Store, ms: seq<Metrics>, f: TxFault)
    ensures Statements(s, ms, f).Success? ==> ApplyBatchAdd(s, ms) == Some(Statements(s, ms, f).value)
    ensures f == TxOk ==> (Statements(s, ms, f) ==
      if ApplyBatchAdd(s, ms).Some? then Success(ApplyBatchAdd(s, ms).value) else Failure(PgError(NumericValueOutOfRange)))
  {
    if ms != [] {
      StatementsAgreeWithBatchAdd(s, ms[..|ms| - 1], f);
    }
  }

  /** All or nothing: a committed transaction holds every applicable record of the batch. */
  lemma TransactionCommitsBatchAdd(s: Store, ms: seq<Metrics>, f: TxFault)
    requires Transaction(s, ms, f).Success?
    ensures ApplyBatchAdd(s, ms) == Some(Transaction(s, ms, f).value)
  {
    StatementsAgreeWithBatchAdd(s, ms, f);
  }

  /** Whichever attempt of a retried transaction ends the run without error added the batch
      to the tables it found; when no commit acknowledgement was lost, those are the tables
      the run started from. */
  lemma RetriedTransactionCommits(s: Store, ms: seq<Metrics>, faults: nat -> TxFault, run: Retry.RetryRun<DbError>)
    requires run == Retry.Run(TxAttempts(s, ms, faults), IsRetriableDBError) && run.err.None?
    ensures 1 <= run.attempts
    ensures ApplyBatchAdd(TablesBefore(s, ms, faults, run.attempts - 1), ms) == Some(TablesBefore(s, ms, faults, run.attempts))
    ensures NoAckLost(faults, run.attempts) ==> ApplyBatchAdd(s, ms) == Some(TablesBefore(s, ms, faults, run.attempts))
  {
    var retriable := IsRetriableDBError;
    RetriedRunTables(s, ms, faults, retriable, run);
  }

  /** What a retried transaction leaves, for any retry predicate: the tables after the
      attempts the run made. When no commit acknowledgement was lost, these are the batch
      added once on success, and the starting tables on failure. */
  lemma RetriedRunTables(s: Store, ms: seq<Metrics>, faults: nat -> TxFault, retriable: DbError -> bool, run: Retry.RetryRun<DbError>)
    requires run == Retry.Run(TxAttempts(s, ms, faults), retriable)
    ensures 1 <= run.attempts
    ensures run.err.None? ==>
      ApplyBatchAdd(TablesBefore(s, ms, faults, run.attempts - 1), ms) == Some(TablesBefore(s, ms, faults, run.attempts))
    ensures NoAckLost(faults, run.attempts) && run.err.None? ==> ApplyBatchAdd(s, ms) == Some(TablesBefore(s, ms, faults, run.attempts))
    ensures NoAckLost(faults, run.attempts) && run.err.Some? ==> TablesBefore(s, ms, faults, run.attempts) == s
  {
    var op := TxAttempts(s, ms, faults);
    Retry.RunShape(op, retriable, 0, None, 0);
    var last := run.attempts - 1;
    assert op(last) == run.err;
    var t := TablesBefore(s, ms, faults, last);
    AfterAttemptOutcome(t, ms, faults(last));
    if run.err.None? {
      TransactionCommitsBatchAdd(t, ms, faults(last));
    }
    if NoAckLost(faults, run.attempts) {
      forall j: nat | j < last
        ensures RolledBack(TablesBefore(s, ms, faults, j), ms, faults(j))
      {
        assert Retry.RetriedUpTo(op, retriable, 0, last);
        assert op(j).Some?;
      }
      RolledBackAttemptsChangeNothing(s, ms, faults, last);
    }
  }

  /** A commit whose acknowledgement is lost (08007) is retried, and the retry adds the
      batch a second time: one counter record with delta 1 leaves a total of 2. */
  lemma AckLostCommitAddsTwice()
    ensures var ms := [CounterRecord("c", 1)];
      var faults := (i: nat) => if i == 0 then CommitAckLost(PgError(TransactionResolutionUnknown)) else TxOk;
      Retry.Run(TxAttempts(Empty, ms, faults), IsRetriableDBError) == Retry.RetryRun(None, 2, 0)
      && TablesBefore(Empty, ms, faults, 2).counters == map["c" := 2]
  {
    var ms := [CounterRecord("c", 1)];
    var faults := (i: nat) => if i == 0 then CommitAckLost(PgError(TransactionResolutionUnknown)) else TxOk;
    assert ms[..0] == [];
    var t1 := Store(map[], map["c" := 1]);
    assert Statements(Empty, ms, faults(0)) == Success(t1);
    assert TablesBefore(Empty, ms, faults, 1) == t1;
    var t2 := Store(map[], map["c" := 2]);
    assert map["c" := 1]["c" := 2 as int64] == map["c" := 2];
    assert AddCounter(t1, "c", 1) == Some(t2);
    assert Statements(t1, ms, TxOk) == Success(t2);
    var op := TxAttempts(Empty, ms, faults);
    assert op(0) == Some(PgError(TransactionResolutionUnknown));
    assert Transaction(t1, ms, TxOk) == Success(t2);
    assert op(1) == ErrorOf(Transaction(TablesBefore(Empty, ms, faults, 1), ms, faults(1)));
    assert TablesBefore(Empty, ms, faults, 2) == t2;
    Retry.FirstSuccessStops(op, IsRetriableDBError, 1);
  }

  lemma FaultFreeTransaction(s: Store, ms: seq<Metrics>)
    ensures Transaction(s, ms, TxOk) ==
      (if ApplyBatchAdd(s, ms).Some? then Success(ApplyBatchAdd(s, ms).value) else Failure(PgError(NumericValueOutOfRange)))
  {
    StatementsAgreeWithBatchAdd(s, ms, TxOk);
  }

  /** The body of the retried closure: begin, the statement loop with an early return on
      the first error, commit. */
  method RunTransaction(s: Store, ms: seq<Metrics>, f: TxFault) returns (r: Result<Store, DbError>)
    ensures r == Transaction(s, ms, f)
  {
    if f.BeginFails? {
      return Failure(f.err);
    }
    var tx := s;
    var i := 0;
    while i < |ms|
      invariant 0 <= i <= |ms|
      invariant Statements(s, ms[..i], f) == Success(tx)
    {
      var m := ms[i];
      assert ms[..i + 1][..i] == ms[..i];
      if m.mtype == GaugeType {
        if m.value.Some? {
          if f.ExecFails? && f.index == i {
            StatementsFailurePersists(s, ms, i + 1, f);
            return Failure(f.err);
          }
          tx := tx.(gauges := tx.gauges[m.id := m.value.value]);
        }
      } else if m.mtype == CounterType {
        if m.delta.Some? {
          if f.ExecFails? && f.index == i {
            StatementsFailurePersists(s, ms, i + 1, f);
            return Failure(f.err);
          }
          var total := m.delta.value as int;
          if m.id in tx.counters {
            total := tx.counters[m.id] as int + total;
          }
          if !InInt64Range(total) {
            StatementsFailurePersists(s, ms, i + 1, f);
            return Failure(PgError(NumericValueOutOfRange));
          }
          tx := tx.(counters := tx.counters[m.id := total as int64]);
        }
      }
      i := i + 1;
    }
    assert ms[..|ms|] == ms;
    if f.CommitFails? || f.CommitAckLost? {
      return Failure(f.err);
    }
    return Success(tx);
  }
}
