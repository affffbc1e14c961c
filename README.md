# Metrics agent and collector: a Dafny model

This project models the core of a metrics collection system written in Go. It has two
halves:

- **Agent.** It samples runtime and host gauges into a shared snapshot and counts polls in
  `PollCount`. Every report tick it turns the snapshot into a batch and queues it. The
  batch is sent as JSON over HTTP, encrypted, signed with HMAC-SHA-256 and gzipped, or
  over gRPC in chunks. HTTP sends go through a retry loop with the fixed schedule 0, 1,
  3 and 5 seconds. Its predicate asks for another attempt only after a client error,
  and the resty client reports none for an HTTP error status. So a POST is in fact made
  once (`Sender.RestyOutcomesNeverRetried`).
- **Server.** It accepts single and batch updates through URL, JSON and gRPC handlers.
  It validates them and stores gauges (the latest value wins) and counters (deltas add
  up) in one of two backends:
  - an in-memory map with an optional snapshot file;
  - a PostgreSQL pair of tables. Writes go through the same retry engine, and a
    classifier of SQLSTATE codes decides what is retried.

The model is layered as the program is:

- **Value layer.** Datatypes and functions: `Models`, `Store`, `Retry`, `DbErrors`,
  `SqlTables`, `Validate`, `Hex`, `Middleware`, `Sender`, `Snapshot`, `GrpcClient`,
  `Audit`.
- **Stateful objects.** Classes whose methods update their fields: the storages
  `MemStorage.MemStorageData`, `DbStorage.DbStorageData`,
  `LegacyDbStorage.LegacyDbStorageData` and `Repository.MetricsRepo`; the server-side
  `Service.MetricsService`, `LegacyHandlers.Handler` and `GrpcServer.GRPCServer`; the
  agents `AgentCore.Agent` and `LegacyAgent.LegacyAgentData`; and `Audit.Publisher`.
- **Specification functions.** Every loop of the source is a `method` with invariants,
  proved equal to a specification function:
  - `Retry.Run` for retry loops;
  - `SqlTables.Transaction` for a transaction;
  - `Store.ApplyBatchReplace` and `Store.ApplyBatchAdd` for batches;
  - `GrpcClient.BatchRun` for chunked sending;
  - listing functions for the text pages.

  The properties are proved about those functions as lemmas.

The repository holds two generations of most server and agent code:

- **Current code** lives under `internal/`.
- **First generation** is `storage/`, `handlers/` and `cmd/agent/main.go`.

Both are modelled, and the modules for the first generation are prefixed `Legacy`. The
two generations do not behave alike, and the model follows the code in each:

- The memory backend's batch update replaces counters. Both SQL backends' batch updates
  add them.
- The current SQL `UpdateCounter` replaces the stored total. The first-generation one
  keeps the existing row (see Findings).
- The first-generation JSON handler stores a counter's delta as its new total instead of
  adding it (see Findings).
- The first-generation validators `validateUpdateJson` and `validateGetMetricJson`
  (handlers/update.go:256-289) make the same checks in the same order as the current
  ones. Both generations therefore use `Validate.ValidateUpdateJSON` and
  `Validate.ValidateGetMetricJSON`.
- A counter update does not always add its delta to the stored total
  (internal/service/metrics.go:125-126). The read-then-write uses Go's 64-bit `+`,
  which wraps around, so the total can decrease (`Service.CounterUpdateWraps`). With
  PostgreSQL, a failed read counts as 0, so the total is reset to the delta
  (`Service.FailedReadResetsCounter`).

Counters are an explicit `int64` newtype with two overflow rules:

- Go's `+` on them is `Models.WrapAdd`, which is two's complement.
- The SQL `counters.delta + $2` fails with SQLSTATE 22003 when it overflows
  (`Store.AddCounter`), because a PostgreSQL BIGINT raises instead of wrapping.

Gauges are `real` and treated as opaque values. They are never computed on.

The following become function-valued parameters, and the model proves nothing about how
they work inside:

- float parsing and formatting;
- HMAC;
- RSA encryption;
- gzip;
- JSON marshalling;
- host/port splitting.

What the outside world does also becomes parameters:

- each call's outcome, which is `nat -> Option<Error>` (the result of the i-th attempt);
- the contents of the snapshot file;
- the request headers;
- the environment.

## Model

| member | source | states |
|---|---|---|
| Retry.WithRetry | internal/retry/retry.go:10-42 | the loop returns exactly the run `Run` defines (final error, number of calls, accumulated sleep) and makes between 1 and 4 calls |
| Retry.FirstSuccessStops | internal/retry/retry.go:15-18 | once the i-th call succeeds after only retriable failures, no further call is made and the result is nil |
| Retry.NonRetriableStops | internal/retry/retry.go:20-23 | a failure the predicate refuses is returned at once, with no sleep after it |
| Retry.ExhaustedReturnsLastError | internal/retry/retry.go:36-41 | after four retriable failures the fourth error is returned, having slept 0+1+3+5 = 9 seconds, the last 5 of them after the final call |
| Retry.TwoRetriableFailuresThenSuccess | internal/retry/retry.go:11-33 | two transient failures then success: three calls, no sleep after the first failure and one second after the second |
| Retry.PredicateOnlyOnFailures | internal/retry/retry.go:20 | the predicate is consulted only on errors: two predicates that agree on the errors seen give the same run |
| DbErrors.RetriableExactlyConnectionCodes | internal/storage/dbstorage.go:201-217 | retriable exactly when the innermost wrapped error is a PostgreSQL error whose SQLSTATE is one of the six connection codes, all of class 08 |
| DbErrors.ClassifierExamples | storage/dbstorage.go:244-260 | overflow, serialization failure, a bare class prefix and driver errors are terminal; a connection failure is retriable even through two wrappings |
| LegacyDbStorage.WithDBRetry | storage/dbstorage.go:210-242 | the first generation's retry loop is the generic loop of internal/retry/retry.go:10-42 apart from its log text, so it is modelled as that engine run with the SQLSTATE classifier: its error, call count and sleep are `Retry.Run`'s (by construction, not a separately proved loop) |
| LegacyDbStorage.WithDBRetryTestTable | internal/storage/dbstorage_test.go:21-67 | the three test cases: non-retriable failure gives 1 call and an error; 2 transient failures give 3 calls and success; 5 transient failures give 4 calls and an error |
| LegacyDbStorage.UpsertCounterKeepExisting | storage/dbstorage.go:69-77 | the conflict clause as written: a new name is inserted, an existing row is left unchanged |
| LegacyDbStorage.KeepExistingLosesUpdate | storage/dbstorage.go:73 | counterexample: a stored total 1 updated with 5 stays 1 |
| LegacyDbStorage.LegacyDbStorageData.constructor | storage/dbstorage.go:31-52 | `CREATE TABLE IF NOT EXISTS` keeps the existing rows |
| LegacyDbStorage.LegacyDbStorageData.UpdateGauge | storage/dbstorage.go:59-67 | a committed upsert sets the gauge; a failed one (after retries) changes nothing; counters untouched |
| LegacyDbStorage.LegacyDbStorageData.UpdateCounter | storage/dbstorage.go:69-77 | a committed upsert applies the keep-existing clause; a failed one changes nothing |
| LegacyDbStorage.LegacyDbStorageData.GetGauge | storage/dbstorage.go:79-89 | (value, true) exactly when the query succeeds and the row exists, else (0, false) |
| LegacyDbStorage.LegacyDbStorageData.GetCounter | storage/dbstorage.go:91-101 | (total, true) exactly when the query succeeds and the row exists, else (0, false) |
| LegacyDbStorage.LegacyDbStorageData.GetKeyGauge | storage/dbstorage.go:103-131 | every gauge id exactly once, or an empty list when the query fails |
| LegacyDbStorage.LegacyDbStorageData.GetKeyCounter | storage/dbstorage.go:133-161 | every counter id exactly once, or an empty list when the query fails |
| LegacyDbStorage.LegacyDbStorageData.BatchUpdate | storage/dbstorage.go:163-208 | the retried transaction: the error is the retry run's and the tables are what the attempts left; unless a commit acknowledgement was lost, success leaves the batch applied with additive counters and failure changes nothing |
| SqlTables.Exec | internal/storage/dbstorage.go:165-191 | a record missing its value or of an unknown type is skipped; a statement that succeeds has the effect of the additive upsert |
| SqlTables.StatementsFailurePersists | internal/storage/dbstorage.go:164-191 | the first failing statement aborts the transaction: later records are not applied |
| SqlTables.StatementsAgreeWithBatchAdd | internal/storage/dbstorage.go:164-191 | the statements of a transaction compute the batch's additive semantics; without injected faults they fail only on BIGINT overflow (SQLSTATE 22003) |
| SqlTables.TransactionCommitsBatchAdd | internal/storage/dbstorage.go:155-198 | a committed transaction leaves exactly the additive batch result |
| SqlTables.AfterAttemptOutcome | internal/storage/dbstorage.go:155-198 | a committed attempt leaves its transaction's tables; a rolled-back one leaves the tables it found; a commit whose acknowledgement is lost reports its error but leaves the batch applied |
| SqlTables.RolledBackAttemptsChangeNothing | internal/storage/dbstorage.go:154-198 | attempts that were all rolled back leave the tables as they were |
| SqlTables.RetriedRunTables | internal/storage/dbstorage.go:154-199 | for any retry predicate: the run has an attempt; a successful run's last attempt added the batch; with no lost acknowledgement, success adds the batch once to the original tables and failure leaves them |
| SqlTables.AckLostCommitAddsTwice | internal/storage/dbstorage.go:192-198 | a counter delta of 1 whose first commit reports 08007 after committing is retried and added twice: the total is 2 after 2 attempts without error |
| SqlTables.RetriedTransactionCommits | internal/storage/dbstorage.go:154-199 | when the retried transaction ends in success, its last attempt added the batch to the tables it found; with no lost commit acknowledgement, those are the original tables |
| SqlTables.FaultFreeTransaction | internal/storage/dbstorage.go:155-198 | with no infrastructure fault the transaction commits the batch, or fails with 22003 exactly when a counter overflows |
| SqlTables.RunTransaction | internal/storage/dbstorage.go:155-198 | the loop over the records computes `Transaction` (begin, statements in order, commit, rollback otherwise) |
| DbStorage.DbStorageData.constructor | internal/storage/dbstorage.go:34-43 | opening keeps the rows already in the tables |
| DbStorage.DbStorageData.UpdateGauge | internal/storage/dbstorage.go:50-58 | a committed upsert sets the gauge; a failed one changes nothing; counters untouched |
| DbStorage.DbStorageData.UpdateCounter | internal/storage/dbstorage.go:60-68 | a committed upsert replaces the stored total, so a following read returns it; a failed one changes nothing |
| DbStorage.DbStorageData.GetGauge | internal/storage/dbstorage.go:70-80 | (value, true) exactly when the query succeeds and the row exists, else (0, false) |
| DbStorage.DbStorageData.GetCounter | internal/storage/dbstorage.go:82-92 | (total, true) exactly when the query succeeds and the row exists, else (0, false) |
| DbStorage.DbStorageData.GetKeyGauge | internal/storage/dbstorage.go:94-122 | every gauge id exactly once, or (nil, error) with no partial list |
| DbStorage.DbStorageData.GetKeyCounter | internal/storage/dbstorage.go:124-152 | every counter id exactly once, or (nil, error) with no partial list |
| DbStorage.DbStorageData.BatchUpdate | internal/storage/dbstorage.go:154-199 | the error is that of the retried transaction and the tables are what its attempts left; unless a commit acknowledgement was lost, success leaves the additive batch result and failure leaves the tables unchanged |
| DbStorage.DbStorageData.Commit | internal/storage/dbstorage.go:193-197 | a commit makes the transaction's tables the stored ones |
| Store.ApplyReplace | storage/memstorage.go:172-185 | a record that is not a gauge with a value or a counter with a delta leaves the store unchanged |
| Store.BatchReplaceLastWins | storage/memstorage.go:169-189 | after a replacing batch each name holds the value of its last record in the batch, or its old value if the batch does not mention it |
| Store.AddCounter | internal/storage/dbstorage.go:177-187 | the additive upsert: the new total is old total (0 if absent) plus delta, and it fails exactly on BIGINT overflow |
| Store.BatchAddSums | internal/storage/dbstorage.go:164-191 | after an additive batch, gauges hold the last value and each counter the old total plus the sum of all its deltas in the batch |
| Store.GaugeOnlyBatchesAgree | storage/memstorage.go:169-189 | for batches without counters the two backends' batch semantics coincide |
| Store.RepeatedCounterDiffers | storage/memstorage.go:178-182 | a batch naming a counter twice (deltas 1 and 2) stores 2 in memory but 3 in SQL |
| Store.MapKeys | storage/memstorage.go:73-79 | the keys of a map, each once |
| MemStorage.SaveSpec | storage/memstorage.go:100-130 | saving succeeds exactly with a path and no fault, and then the file holds the snapshot; no path or a failed open leaves the file untouched |
| MemStorage.LoadSpec | storage/memstorage.go:132-157 | no path is an error; a missing file loads nothing and is no error; any error leaves the maps; a saved snapshot replaces them |
| MemStorage.SaveLoadRoundTrip | storage/memstorage.go:100-157 | loading what a successful save wrote restores exactly the saved maps |
| MemStorage.FailedSaveLoadsNothingNew | storage/memstorage.go:100-130 | after a failed save, loading yields what loading the earlier file yielded |
| MemStorage.MemStorageData.constructor | storage/memstorage.go:36-44 | a new storage is empty and remembers path and sync flag |
| MemStorage.MemStorageData.GetGauge | storage/memstorage.go:68-71 | (value, true) for a stored name, else (0, false) |
| MemStorage.MemStorageData.GetCounter | storage/memstorage.go:81-84 | (total, true) for a stored name, else (0, false) |
| MemStorage.MemStorageData.SaveData | storage/memstorage.go:100-130 | the file and the error are `SaveSpec`'s; the maps are unchanged |
| MemStorage.MemStorageData.LoadData | storage/memstorage.go:132-157 | the maps and the error are `LoadSpec`'s; the file is unchanged |
| MemStorage.MemStorageData.UpdateGauge | storage/memstorage.go:50-57 | the gauge is set, nothing else is; with synchronous saving the file receives the new snapshot |
| MemStorage.MemStorageData.UpdateCounter | storage/memstorage.go:59-66 | the counter is set to the given value, nothing else is; with synchronous saving the file receives the new snapshot |
| MemStorage.MemStorageData.GetKeyGauge | storage/memstorage.go:73-79 | every gauge name exactly once |
| MemStorage.MemStorageData.GetKeyCounter | storage/memstorage.go:86-92 | every counter name exactly once |
| MemStorage.MemStorageData.BatchUpdate | storage/memstorage.go:169-189 | the maps become the batch applied record by record with replacing semantics; no error; no save |
| Repository.BatchOutcome | internal/repository/repository.go:18 | what a backend's batch does: replace (memory) or add (SQL); a failed SQL batch changes nothing |
| Repository.MetricsRepo.constructor | internal/repository/repository.go:10-19 | a repository holds the given contents and batch semantics |
| Repository.MetricsRepo.UpdateGauge | internal/storage/dbstorage.go:50-58 | sets the gauge and nothing else, except that a SQL write failing after its retries changes nothing (the error is dropped) |
| Repository.MetricsRepo.UpdateCounter | internal/storage/dbstorage.go:60-68 | sets the counter total and nothing else, except that a SQL write failing after its retries changes nothing (the error is dropped) |
| Repository.MetricsRepo.GetGauge | internal/storage/dbstorage.go:70-80 | (value, true) for a stored name whose query does not fail, else (0, false): a failed SQL query looks like a missing metric |
| Repository.MetricsRepo.GetCounter | internal/storage/dbstorage.go:82-92 | (total, true) for a stored name whose query does not fail, else (0, false): a failed SQL query looks like a missing metric |
| Repository.MetricsRepo.GetKeyGauge | internal/repository/repository.go:16 | every gauge name once, or (nil, error) |
| Repository.MetricsRepo.GetKeyCounter | internal/repository/repository.go:17 | every counter name once, or (nil, error) |
| Repository.MetricsRepo.BatchUpdate | internal/repository/repository.go:18 | the error and new contents are `BatchOutcome`'s |
| Models.WrapAdd | internal/service/metrics.go:126 | Go's int64 `+`: congruent to the true sum modulo 2^64, and equal to it when it fits |
| Models.FormatCounterValueShape | internal/models/models.go:20-22 | the decimal text of a counter: "0" for zero, a '-' exactly for negatives, then digits without a leading zero |
| Models.ParseInt | internal/server/handlers/update.go:60 | `strconv.ParseInt(s, 10, 64)`: success only on an optional sign followed by digits; a well-formed numeral out of range is a range error; the sign of the result follows the text |
| Models.ParseFormatRoundTrip | internal/models/models.go:20-22 | parsing the formatted text of any counter gives it back |
| Models.ParseIntRejectsNonIntegers | handlers/update.go:302-306 | "42.2", "-42.2", "test", "" and "-" are refused; "42" and "-42" are read |
| Validate.ValidateUpdateJSON | internal/server/handlers/validate.go:9-30 | accepted exactly when the id is non-empty and the record carries the field its known type needs; each failure gives its own error, in the order id, type, field |
| Validate.ValidateGetMetricJSON | internal/server/handlers/validate.go:32-42 | accepted exactly with a non-empty id and a known type; the id is checked first |
| Validate.UpdateAcceptedIsReadable | internal/server/handlers/validate.go:9-42 | what the update validator accepts the read validator accepts, and both report the same error when the read one refuses |
| Validate.UnusedFieldIgnored | internal/server/handlers/validate.go:18-27 | the field the type does not use never affects validation |
| Service.ValidateMetric | internal/service/metrics.go:144-163 | accepted exactly with a non-empty id and a known type; id checked first |
| Service.UpdateOutcome | internal/service/metrics.go:110-132 | an update succeeds exactly with a non-empty id and the field its type needs, whatever the repository calls do; a gauge is replaced and a counter becomes its total plus delta (wrapping), the total read as 0 when its query fails; a write dropped by the SQL backend changes nothing; a refused update changes nothing and names its reason |
| Service.CounterUpdatesAccumulate | internal/service/metrics.go:121-126 | two counter updates in a row leave the old total plus both deltas |
| Service.CounterUpdateWraps | internal/service/metrics.go:125-126 | adding 1 to the largest int64 total stores the smallest |
| Service.FailedReadResetsCounter | internal/service/metrics.go:125-126 | when the SQL read of the current total fails, the update succeeds and stores the delta alone, losing the accumulated total |
| Service.DroppedWriteReportsSuccess | internal/service/metrics.go:115-131 | a valid update whose SQL write fails after its retries reports success and changes nothing |
| Service.MetricsText | internal/service/metrics.go:24-54 | the listing has an entry for every gauge and counter name |
| Service.ListedCountersParseBack | internal/service/metrics.go:46-51 | every counter entry of the listing parses back to the stored total |
| Service.MetricsService.constructor | internal/service/metrics.go:17-21 | the service wraps the given repository |
| Service.MetricsService.GetMetric | internal/service/metrics.go:62-79 | unknown type first; a missing name or a failed SQL query is "not found"; otherwise the stored gauge or counter |
| Service.MetricsService.GetMetricJSON | internal/service/metrics.go:82-107 | validation before lookup; a missing name or a failed SQL query is "not found"; otherwise the request with the stored value or total filled in |
| Service.MetricsService.UpdateMetric | internal/service/metrics.go:110-132 | the error and new repository contents are `UpdateOutcome`'s under the faults the backend can have (none in memory) |
| Service.MetricsService.BatchUpdate | internal/service/metrics.go:135-141 | an empty batch is refused without touching storage; otherwise the backend's batch outcome |
| Service.MetricsService.GetAllMetricsData | internal/service/metrics.go:24-54 | a failing key listing is returned with an empty result; otherwise the listing is `MetricsText` of the contents |
| Service.MetricsService.GaugeLines | internal/service/metrics.go:33-38 | the gauge loop yields one formatted entry per stored gauge |
| Service.MetricsService.CounterLines | internal/service/metrics.go:46-51 | the counter loop adds one decimal entry per stored counter, overwriting a same-named gauge entry, keeping the rest |
| Middleware.ContentTypeAccepted | internal/middleware/middleware.go:20-43 | a request passes exactly when it has no Content-Type or one starting with the expected media type |
| Middleware.CheckApplicationJSONContentType | internal/middleware/middleware.go:20-30 | 415 exactly for a non-empty Content-Type not starting with application/json |
| Middleware.CheckPlainTextContentType | internal/middleware/middleware.go:33-43 | 415 exactly for a non-empty Content-Type not starting with text/plain |
| Middleware.ContentTypeExamples | internal/middleware/middleware.go:20-43 | a charset suffix and an absent header pass; the other media type is refused |
| Middleware.CheckHash | internal/middleware/middleware.go:83-120 | no key: pass untouched; unreadable body: 400; no hash or "none": pass with the body; otherwise pass exactly when the hex hash decodes to the body's HMAC, else 400 |
| Middleware.SignedRequestAccepted | internal/middleware/middleware.go:83-120 | a body signed with the same key and sent in hex as the agent does is accepted with its body |
| Middleware.AlteredBodyRejected | internal/middleware/middleware.go:103-116 | a body whose HMAC differs from the signed one is refused with 400 |
| Hex.EncodeToString | internal/agent/sender.go:43 | two hex digits per byte |
| Hex.DecodeString | internal/middleware/middleware.go:107 | decoding succeeds only on an even number of hex digits, and yields half as many bytes |
| Hex.DecodeEncode | internal/middleware/middleware.go:107-112 | decoding an encoding gives back the bytes |
| Hex.DecodeRejects | internal/middleware/middleware.go:107-111 | odd lengths and non-hex text (including "none") are refused; mixed case is read |
| Handlers.QueryRecord | internal/server/handlers/update.go:46-71 | the record built from a URL: a gauge exactly when its value parses as float, a counter exactly when it parses as int64, an unknown type refused |
| Handlers.QueryRecordAccepted | internal/server/handlers/update.go:46-71 | the service never refuses a URL-built record with a name, whatever the repository calls do |
| Handlers.UpdateDataQuery | internal/server/handlers/update.go:46-71 | a parse failure changes nothing; otherwise the repository becomes the service's update of the record under the backend's faults |
| Handlers.UpdateHandlerQuery | internal/server/handlers/update.go:20-44 | 404 for no name, 400 for no value or type or a bad value, else 200 with the service's update applied and an audit event published; a write the SQL backend dropped still answers 200 and changes nothing |
| Handlers.QueryCounterAccumulates | internal/server/handlers/update.go:59-70 | a counter sent through the URL is added to the stored total (two's complement) when the repository calls succeed |
| Handlers.BodySignature | internal/server/handlers/utils.go:33-41 | no signature without a key, otherwise the HMAC of the body |
| Handlers.UpdateHandlerJSON | internal/server/handlers/update.go:74-129 | an unreadable body is 400 with nothing stored; otherwise the service's update is applied and a refused update is 400; an accepted one is 500 exactly when the SQL read-back fails or the SQL write was dropped for a new name, else 200 with the stored value (the old one after a dropped write), signed when a key is set |
| Handlers.GetStringValue | internal/server/handlers/utils.go:9-31 | text exactly for a stored gauge or counter whose query does not fail; a counter's text parses back to its total |
| LegacyHandlers.QueryEffect | handlers/update.go:291-316 | the first-generation URL update: unknown types and bad numbers refused; only the named metric changes; a gauge leaves counters alone |
| LegacyHandlers.QueryEffectAgreesWithService | handlers/update.go:291-316 | the first-generation URL update and the current service's update agree on every input |
| LegacyHandlers.JsonCounterDoesNotAccumulate | handlers/update.go:235-237 | counterexample: stored 5, delta 3: the first-generation JSON path stores 3 where the service stores 8 |
| LegacyHandlers.GaugeListing | handlers/update.go:150-155 | one "name: value;" line per listed gauge, in order |
| LegacyHandlers.CounterListing | handlers/update.go:156-161 | one "name: total;" line per listed counter, in order |
| LegacyHandlers.ListingMentionsEveryMetric | handlers/update.go:142-166 | every stored gauge and counter has its line in the page |
| LegacyHandlers.Handler.constructor | handlers/update.go:20-23 | the handler is bound to a memory storage |
| LegacyHandlers.Handler.UpdateDataQuery | handlers/update.go:291-316 | refused input changes nothing; otherwise the maps become `QueryEffect`'s and, with synchronous saving, the file is written |
| LegacyHandlers.Handler.UpdateHandlerQuery | handlers/update.go:168-196 | 415, 404, 400 in that order of checks; 200 exactly when the update applies |
| LegacyHandlers.Handler.UpdateHandlerJson | handlers/update.go:198-254 | 415 for a foreign type, 400 for an unreadable or invalid record; 200 stores value or delta as given and answers the stored one |
| LegacyHandlers.Handler.GetStringValue | handlers/update.go:24-46 | text exactly for a stored gauge or counter; a counter's text parses back to its total |
| LegacyHandlers.Handler.GaugeLines | handlers/update.go:150-155 | the gauge loop builds `GaugeListing` |
| LegacyHandlers.Handler.CounterLines | handlers/update.go:156-161 | the counter loop builds `CounterListing` |
| LegacyHandlers.Handler.GetAllMetrics | handlers/update.go:142-166 | 415 with no page for a foreign type; otherwise the gauge lines then the counter lines |
| Sender.IsRetriableHTTP | internal/agent/sender.go:49-66 | no error is never retried; a response is retried exactly when its status is 429, 502, 503 or 504; an error without a response is retried |
| Sender.CallCount | internal/agent/sender.go:31-70 | between 1 and 4 calls; every call before the last failed retriably; fewer than 4 means the last was final |
| Sender.RetryGzipJSONRequest | internal/agent/sender.go:31-70 | the loop makes `CallCount` calls and returns the last call's response and error |
| Sender.CleanFirstAttemptIsFinal | internal/agent/sender.go:50-52 | a call without error is not repeated |
| Sender.RejectedRequestNotRepeated | internal/agent/sender.go:53-60 | a response with a non-transient status is not repeated |
| Sender.GatewayErrorRepeated | internal/agent/sender.go:53-66 | a transport error or a transient status is repeated at least once |
| Sender.RestyOutcomesNeverRetried | internal/agent/sender.go:31-66 | with the outcomes the resty client returns (no error for any status, status 0 with a transport error) the request is posted exactly once |
| Sender.BatchPayload | internal/agent/sender.go:72-93 | an empty batch is refused; otherwise the body is marshalled, encrypted, gzipped, signed over the encrypted bytes, each failure reported as its own error |
| Sender.SendOutcome | internal/agent/sender.go:72-110 | a payload error is returned; otherwise only the final transport error is, whatever the status |
| Sender.DeliveredIgnoresStatus | internal/agent/sender.go:95-109 | a call that returns without transport error counts as delivered |
| Sender.CreateBatchRequest | internal/agent/sender.go:72-110 | no request when the payload fails; otherwise that payload is sent with the retry loop's calls |
| LegacyAgent.LegacyPayload | cmd/agent/main.go:62-80 | an empty batch is refused; otherwise the marshalled batch, gzipped |
| LegacyAgent.LegacyAgentData.constructor | cmd/agent/main.go:31-40 | a new agent has its settings, no gauges and PollCount 0 |
| LegacyAgent.LegacyAgentData.MetricHandler | cmd/agent/main.go:185-226 | one poll writes the runtime gauges and RandomValue, keeps others, and adds 1 to PollCount |
| LegacyAgent.LegacyAgentData.RetryGzipJSONRequest | cmd/agent/main.go:82-120 | the first generation's loop agrees with the generic engine: same calls, same sleep, last response and error |
| LegacyAgent.LegacyAgentData.CreateBatchRequest | cmd/agent/main.go:122-148 | payload errors returned before any call; otherwise the gzipped body is sent with the retry loop |
| LegacyAgent.LegacyAgentData.ReportTick | cmd/agent/main.go:228-255 | the batch is every gauge plus PollCount and is never empty; the logged error is the payload error, or else the transport error of the last POST (none when it succeeded) |
| Snapshot.CollectorKeyCount | internal/agent/collector.go:16-43 | the primary collector writes 28 distinct gauges |
| Snapshot.RandomKeyFresh | internal/agent/collector.go:43 | RandomValue is not one of the runtime gauges |
| Snapshot.CollectorsDisjoint | internal/agent/collectorAdv.go:24-30 | the host collector's gauges are not the primary collector's |
| Snapshot.PollWrites | internal/agent/collector.go:16-43 | a poll sets each runtime gauge from its reading and RandomValue, and keeps the other entries |
| Snapshot.AdvWrites | internal/agent/collectorAdv.go:24-30 | the host poll sets total and free memory, CPU utilization only when a reading exists, and keeps the rest |
| Snapshot.AdvKeepsCollectorReadings | internal/agent/collectorAdv.go:24-30 | a host poll never overwrites the primary collector's readings |
| Snapshot.GaugeRecords | internal/agent/sender.go:172-180 | one gauge record per snapshot entry, with its value, each name once |
| Snapshot.ReportAfterPollIsLarge | internal/agent/sender.go:172-185 | a report after a poll holds at least 29 records (28 gauges plus PollCount) |
| Snapshot.ReportStoresSnapshot | internal/agent/sender.go:172-185 | storing a report leaves every snapshot gauge at its value; the memory backend's counter PollCount holds the polled count, and the SQL backend's holds its old total plus the polled count |
| Snapshot.SqlPollCountAddsReports | internal/agent/sender.go:172-185 | two reports stored in a fresh SQL backend leave PollCount at the sum of both polled counts (1, 3, 6, ... for counts 1, 2, 3), while memory keeps the last one |
| AgentCore.FinalBatchShape | internal/agent/agent.go:117-154 | the final batch has one record per gauge plus PollCount only when positive |
| AgentCore.Agent.constructor | internal/agent/agent.go:40-58 | a new agent has its settings, a queue of capacity twice the rate limit, no tasks, nothing cancelled |
| AgentCore.Agent.Collect | internal/agent/collector.go:9-50 | one locked poll: `PollWrites` on the snapshot and PollCount + 1 (wrapping), nothing else |
| AgentCore.Agent.CollectAdv | internal/agent/collectorAdv.go:10-33 | after cancellation nothing is written; otherwise `AdvWrites` on the snapshot, PollCount untouched |
| AgentCore.Agent.ReportTick | internal/agent/sender.go:159-196 | a tick enqueues the report batch of the current snapshot when the agent is live and the queue has room, otherwise enqueues nothing |
| AgentCore.Agent.SendFinalMetrics | internal/agent/agent.go:117-154 | nothing is sent exactly when there are no gauges and PollCount is not positive; otherwise the final batch is sent and its outcome logged |
| AgentCore.Agent.GracefulShutdown | internal/agent/agent.go:93-114 | cancel, wait for the tasks, flush the final metrics, close the shutdown channel, in that order |
| GrpcClient.ToProto | internal/agent/grpc_client.go:64-87 | known types become protobuf metrics with the same id, a missing value or delta sent as 0; unknown types are dropped |
| GrpcClient.ProtoListKeepsOrder | internal/agent/grpc_client.go:64-87 | conversion works record by record, in order |
| GrpcClient.ProtoListCounts | internal/agent/grpc_client.go:64-87 | a batch of unknown types converts to nothing; one of known types keeps every record |
| GrpcClient.ConvertMetrics | internal/agent/grpc_client.go:64-87 | the conversion loop computes `ProtoList` |
| GrpcClient.SendOutcome | internal/agent/grpc_client.go:58-118 | no call when nothing converts; otherwise one call with the agent's address in x-real-ip and the RPC's error returned |
| GrpcClient.SendMetrics | internal/agent/grpc_client.go:58-118 | the call and error are `SendOutcome`'s; an empty batch sends nothing and succeeds |
| GrpcClient.Chunks | internal/agent/grpc_client.go:130-149 | chunks are non-empty, at most the batch size, and all but the last are full |
| GrpcClient.ChunksConcat | internal/agent/grpc_client.go:130-149 | the chunks put together are the batch |
| GrpcClient.ChunksCount | internal/agent/grpc_client.go:130-149 | the number of chunks is the batch length divided by the size, rounded up |
| GrpcClient.EffectiveBatchSize | internal/agent/grpc_client.go:122-124 | a non-positive batch size means the default 100 |
| GrpcClient.BatchRun | internal/agent/grpc_client.go:130-149 | success only after sending every chunk |
| GrpcClient.BatchRunStopsAtFirstFailure | internal/agent/grpc_client.go:130-144 | the first failing chunk ends the run, reporting its 1-based number, and no later chunk is sent |
| GrpcClient.SendMetricsBatch | internal/agent/grpc_client.go:121-153 | the loop computes `BatchRun` over the chunks of the effective size |
| GrpcServer.FromProto | internal/server/grpc_server.go:44-57 | a gauge or counter becomes a record of that kind; any other type is refused |
| GrpcServer.FromProtoList | internal/server/grpc_server.go:42-60 | the request converts exactly when every metric does, record by record |
| GrpcServer.WireRoundTrip | internal/server/grpc_server.go:42-60 | what the agent sends the server reads back unchanged, for records with their field set |
| GrpcServer.ParseIPv4 | internal/server/grpc_server.go:99-113 | a parsed address has four octets of at most 255 |
| GrpcServer.ParseFormatIPv4 | internal/server/grpc_server.go:99-113 | parsing the dotted text of any address gives it back |
| GrpcServer.ParseCIDR | internal/server/grpc_server.go:99-113 | a parsed subnet has four octets and a prefix of at most 32 |
| GrpcServer.InTrustedSubnet | internal/server/grpc_server.go:99-113 | trusted exactly when both texts parse and the address's first prefix bits equal the network's |
| GrpcServer.PrefixLengthExtremes | internal/server/grpc_server.go:99-113 | /0 contains every address; /32 only the network address |
| GrpcServer.IPv4ValueInjective | internal/server/grpc_server.go:99-113 | distinct addresses have distinct 32-bit values |
| GrpcServer.Admission | internal/server/grpc_server.go:72-96 | no trusted subnet admits all; otherwise missing metadata, a missing x-real-ip or an address outside the subnet is refused |
| GrpcServer.FirstRealIPDecides | internal/server/grpc_server.go:82-87 | only the first x-real-ip value matters |
| GrpcServer.AgentCallAdmission | internal/server/grpc_server.go:72-96 | an agent call is admitted exactly when the agent's own address is in the trusted subnet |
| GrpcServer.GRPCServer.constructor | internal/server/grpc_server.go:30-36 | the server holds the storage and the trusted subnet |
| GrpcServer.GRPCServer.UpdateMetrics | internal/server/grpc_server.go:39-69 | an unknown type is InvalidArgument with nothing stored; otherwise the batch is stored, Internal when the storage fails |
| GrpcServer.GRPCServer.InterceptUpdateMetrics | internal/server/grpc_server.go:72-96 | a refused caller gets PermissionDenied before the handler runs; an admitted one gets `UpdateMetrics` |
| Audit.FirstForwarded | internal/audit/audit.go:62-70 | the first entry of X-Forwarded-For, trimmed |
| Audit.ClientIP | internal/audit/audit.go:56-77 | X-Real-IP when non-blank, else the first forwarded address, else the host of the remote address, else the remote address |
| Audit.ForwardedChainUsesFirst | internal/audit/audit.go:62-70 | of a proxy chain only the first hop is taken |
| Audit.BuildEvent | internal/audit/audit.go:48-54 | the event carries the time, the metric names and the client address |
| Audit.Registered | internal/audit/audit.go:33-38 | the registered observers are the non-nil ones offered |
| Audit.RegisteredConcat | internal/audit/audit.go:33-38 | registering two lists in turn equals registering them together |
| Audit.Publisher.constructor | internal/audit/audit.go:29-31 | a new publisher has no observers |
| Audit.Publisher.Register | internal/audit/audit.go:33-38 | a nil observer is ignored, any other is appended |
| ConfigUtils.Resolve | internal/utils/utils.go:3-22 | a value set from the environment is kept; otherwise the flag's value is used |
| ConfigUtils.SetIfUnset | internal/utils/utils.go:3-22 | the configuration cell ends holding `Resolve`'s value |

## Left out

- Concurrency is not modelled. This covers the goroutines, mutexes, tickers, the worker
  pool, `sync.WaitGroup` and the signal handling. Each locked section is one method
  call. The rows that race for queue items are not modelled.
- AgentCore.Agent.ReportTick: a full queue is reported as not enqueued. In the source,
  the send on the channel blocks until there is room or the context is cancelled.
- Snapshot.ReportStoresSnapshot: in the source, the report batch carries a pointer to the
  live `PollCount` (internal/agent/sender.go:182-185). The model takes its value when the
  batch is assembled. A later poll before the send is therefore not reflected.
- AgentCore.Agent.CollectAdv: a CPU reading that fails is skipped, as in the source. A
  memory reading that fails is not modelled: internal/agent/collectorAdv.go:21 drops
  its error and line 25 then dereferences a nil result, which crashes the agent. The
  readings themselves are parameters. The primary collector lacks a cancellation exit
  and a `wg.Done`. Together these are a liveness issue, and this sequential model
  cannot express it.
- AgentCore.Agent.constructor: requires `rateLimit >= 0`. With a negative rate limit,
  `make` panics on the negative channel capacity (internal/agent/agent.go:52), and a
  panic is not modelled.
- LegacyAgent.LegacyAgentData.RetryGzipJSONRequest: requires every failed call to carry
  a response, because cmd/agent/main.go:110 reads the status of the response of every
  failed call. The resty client meets this: after a transport error it returns a
  response whose status is 0 (`Sender.RestyOutcome`). Other results are not modelled.
- Sender.IsRetriableHTTP: the predicate is modelled over every pairing of response and
  error. The resty client produces only some of them: no error for any HTTP status,
  and a response with status 0 for a transport error (`Sender.RestyOutcome`).
- Sender.GatewayErrorRepeated: holds only of outcomes the resty client does not
  produce (an error together with a 429 or 5xx status, or an error without a
  response). With resty's outcomes the request is posted once
  (`Sender.RestyOutcomesNeverRetried`).
- LegacyHandlers.Handler.constructor: the first-generation handler is modelled over the
  memory storage only. cmd/server/main.go:29-40 binds it to PostgreSQL when a DSN is
  set. There the URL counter update (handlers/update.go:305-309) meets the
  keep-existing conflict clause, and an existing counter never changes
  (`LegacyDbStorage.KeepExistingLosesUpdate`).
- Repository.BatchOutcome: a failed SQL batch changes nothing here. A commit whose
  acknowledgement is lost (SQLSTATE 08006 or 08007) and is then retried is modelled
  only in `DbStorage.DbStorageData.BatchUpdate`,
  `LegacyDbStorage.LegacyDbStorageData.BatchUpdate` and `SqlTables.RetriedRunTables`.
- Repository.MetricsRepo.UpdateGauge: a single-row write is given as applied or not
  applied. A lost acknowledgement is harmless there, because the upsert replaces and
  repeating it changes nothing.
- Service.MetricsService.GetAllMetricsData: the per-name lookups inside the listing do
  not fail in the model. With PostgreSQL, a name whose lookup fails is left out of the
  listing.
- The following are parameters, and the model does not capture how they work inside:
  - floating-point parsing and formatting (`strconv.ParseFloat`/`FormatFloat`);
  - HMAC-SHA-256;
  - RSA encryption;
  - gzip compression and decompression;
  - JSON encoding and decoding;
  - `net.SplitHostPort`;
  - `runtime.ReadMemStats`;
  - gopsutil;
  - the random number generator;
  - the clock.
- GrpcServer.InTrustedSubnet handles IPv4 only. IPv6 addresses and subnets are not
  modelled.
- Several operations are not part of this model:
  - the periodic `SaveHandler`, `Ping` and the gzip middleware;
  - the logger;
  - the HTTP routing;
  - the first-generation `GetMetricQuery`/`GetMetricJson` and the single-metric
    `createRequest`.
- The audit observers' delivery (file and HTTP) is not modelled. Only which observers
  are registered, and the event that is built, are.
- The snapshot file's JSON format is not modelled. A file is absent, unreadable,
  corrupt, or a saved snapshot.
- SQL errors are modelled as injected faults: per attempt (`faults`) or per query
  (`queryFails`). Only the counter overflow (22003) follows from the data itself.

## Findings

| source | as written | input that shows it | evidently intended | confidence | as-written member | corrected member |
|---|---|---|---|---|---|---|
| storage/dbstorage.go:73 | the counter upsert's conflict clause is `SET delta = counters.delta`, so an existing row never changes | stored total 1, `UpdateCounter("c", 5)`: the total stays 1 | `SET delta = $2`, so that the service's read-then-write total is stored, as the later internal/storage/dbstorage.go:64 does | not executed | LegacyDbStorage.KeepExistingLosesUpdate | DbStorage.DbStorageData.UpdateCounter |
| handlers/update.go:235-237 | the JSON update passes a counter's delta straight to `UpdateCounter`, which replaces the total | stored total 5, JSON counter update with delta 3: the total becomes 3 | add the delta to the stored total, as the URL path of the same file and the later service do | not executed | LegacyHandlers.JsonCounterDoesNotAccumulate | Service.MetricsService.UpdateMetric |
