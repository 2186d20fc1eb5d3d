# JdbcDbWriter: the transactional, retry-counting write loop of the JDBC sink

This project models the core of the Kafka Connect JDBC sink's writer, `JdbcDbWriter`, and proves what it promises:

- its construction, with checks that the collaborators are not null;
- one `write(records)` call, a fixed sequence of collaborator calls inside try/catch/finally:
  - get a connection and build the prepared statements;
  - when there are statements: turn auto-commit off, let the changes executor create tables and columns, execute every statement (as a batch when the builder batches), and commit;
  - on an `SQLException`: roll back when there is a connection, decrement the retry counter, record the failure, and hand the error to the error policy;
  - in every case: close every statement, then the connection;
- the retry counter and last-error markers the writer keeps across calls;
- the loop in `from` that collects the tables allowing auto-creation and schema evolution.

The collaborators are opaque. These are the connection pool, the statement builder, the changes executor, the error policy, and the JDBC connection and statements. A `Script` value says how they behave during one call:

- how many statements the builder returns, and whether it batches;
- where, if anywhere, the try block throws, and whether it throws an `SQLException` or something else;
- whether rollback, a statement's close or the connection's close throws;
- whether the policy throws.

A call returns the trace of collaborator calls it makes. A call that throws is still recorded. The call also returns how it ends: normal return, policy exception, `NullPointerException` from a null policy, or an escaping unchecked exception.

Files:

- `wrappers.dfy`: `Option` and `Result`.
- `write_spec.dfy` (module `WriteSpec`): events, scripts, and the reference functions for one call: `CallTrace`, `CallExit`, `RetriesAfter`. It also holds the Java `int` wrap-around (`Dec32`) and the counter over a run of calls.
- `jdbc_db_writer.dfy` (module `JdbcDbWriter`): the class `Writer`.
  - Its fields are `retries`, `maxRetries`, `lastError`, `lastErrorMessage` and the collaborators.
  - Its methods are the constructor, `Write`, and `Close`.
  - `Write` is split into the try block `Attempt`, the catch block written inline, and the finally block `Release`. `Attempt` and `Release` each have a loop.
  - The module also holds `Create` (the null checks), `TablesAllowing` (the loop of `from`) and `From`.
- `write_properties.dfy` (module `WriteProperties`): lemmas about the reference functions.

The code's own behaviour is modelled where it differs from the writer's documented intent:

- The statements are built before auto-commit is turned off. Auto-commit is turned off only when there is at least one statement.
- Rollback is attempted whenever a connection was obtained, even when the failure came before auto-commit was turned off.
- Every `SQLException` goes to the error policy, and anything else escapes without rollback or decrement.
- The retry counter has no lower bound. It is a Java `int`, so it wraps from -2^31 to 2^31-1.
- A successful commit does not clear the last-error markers.
- The error policy is not null-checked. A null policy makes the catch block throw a `NullPointerException` after the decrement and the recording of the failure.
- `write` after `close` is not guarded by the writer.

## Model

| member | source | states |
|---|---|---|
| `WriteSpec.Dec32` | src/main/java/com/datamountaineer/streamreactor/connect/jdbc/sink/writer/JdbcDbWriter.java:146 | `retries--` on a Java `int`: the result is one less modulo 2^32, and exactly one less except at the least value |
| `JdbcDbWriter.Writer.constructor` | src/main/java/com/datamountaineer/streamreactor/connect/jdbc/sink/writer/JdbcDbWriter.java:70-86 | after construction `retries == maxRetries ==` the `retries` argument; the collaborators are stored; no failure is recorded |
| `JdbcDbWriter.NullArgument` | src/main/java/com/datamountaineer/streamreactor/connect/jdbc/sink/writer/JdbcDbWriter.java:75-77 | arguments are rejected exactly when the data source, the statement builder or the changes executor is null, naming the first null one in that order; the error policy is not checked |
| `JdbcDbWriter.Create` | src/main/java/com/datamountaineer/streamreactor/connect/jdbc/sink/writer/JdbcDbWriter.java:70-86 | a null data source, builder or changes executor yields a failure naming it; otherwise a fresh writer with `retries == maxRetries == retries` and the given (possibly null) policy |
| `JdbcDbWriter.Writer.Attempt` | src/main/java/com/datamountaineer/streamreactor/connect/jdbc/sink/writer/JdbcDbWriter.java:99-127 | the try block makes exactly the calls of `TryTrace`, stops at the first call that throws, leaves a connection exactly when `getConnection` did not throw and statements exactly when `build` did not, resets the counter to `maxRetries` only after a commit, and reports that the recovery log line, as written, throws exactly when a commit resets a counter different from `maxRetries` |
| `JdbcDbWriter.Writer.Write` | src/main/java/com/datamountaineer/streamreactor/connect/jdbc/sink/writer/JdbcDbWriter.java:94-170 | an empty collection makes no call and changes nothing; otherwise the trace is try, catch and finally calls (`CallTrace`), the exit is `CallExit` with the recovery log line corrected and `CallExitAsWritten` as written, the counter becomes `RetriesAfter` and the last-error markers are set to the clock and message exactly on an `SQLException` |
| `JdbcDbWriter.Release` | src/main/java/com/datamountaineer/streamreactor/connect/jdbc/sink/writer/JdbcDbWriter.java:150-168 | the finally block closes statements 0..k-1 in order when the statements exist, then the connection when it exists, recording but swallowing each close failure |
| `JdbcDbWriter.Writer.Close` | src/main/java/com/datamountaineer/streamreactor/connect/jdbc/sink/writer/JdbcDbWriter.java:173-175 | closing the writer closes the connection pool |
| `JdbcDbWriter.TablesAllowing` | src/main/java/com/datamountaineer/streamreactor/connect/jdbc/sink/writer/JdbcDbWriter.java:197-207 | the auto-create set is exactly the table names of the mappings with `autoCreateTable()`, the evolution set exactly those with `evolveTableSchema()` |
| `JdbcDbWriter.From` | src/main/java/com/datamountaineer/streamreactor/connect/jdbc/sink/writer/JdbcDbWriter.java:183-224 | `from` builds a fresh writer whose changes executor gets those two sets and the configured retries, with `retries == maxRetries ==` the configured retries |
| `WriteSpec.CallExit` | src/main/java/com/datamountaineer/streamreactor/connect/jdbc/sink/writer/JdbcDbWriter.java:128-149 | how a call ends (recovery log line not throwing): a committed call returns normally; never the recovery-format error |
| `WriteSpec.CallExitAsWritten` | src/main/java/com/datamountaineer/streamreactor/connect/jdbc/sink/writer/JdbcDbWriter.java:122-126 | as written, a call raises the recovery-format error exactly when it commits while `retries != maxRetries` |
| `WriteProperties.ExecsAt` | src/main/java/com/datamountaineer/streamreactor/connect/jdbc/sink/writer/JdbcDbWriter.java:112-118 | the i-th execution is of statement i, in the builder's batching mode |
| `WriteProperties.ExecsCount` | src/main/java/com/datamountaineer/streamreactor/connect/jdbc/sink/writer/JdbcDbWriter.java:112-118 | executing k statements executes each of statements 0..k-1 exactly once and no other |
| `WriteProperties.ClosesCount` | src/main/java/com/datamountaineer/streamreactor/connect/jdbc/sink/writer/JdbcDbWriter.java:151-158 | closing k statements closes each of statements 0..k-1 exactly once and no other |
| `WriteProperties.CommittedCallOrder` | src/main/java/com/datamountaineer/streamreactor/connect/jdbc/sink/writer/JdbcDbWriter.java:105-123 | with no exception and k > 0 statements: acquire, build, auto-commit off, handle changes, `Exec(i, batching)` for i = 0..k-1 in order, each statement executed exactly once, exactly one commit, no rollback or policy call, connection closed last; counter back at `maxRetries`; normal return |
| `WriteProperties.EmptyPlanCall` | src/main/java/com/datamountaineer/streamreactor/connect/jdbc/sink/writer/JdbcDbWriter.java:105-167 | with zero statements: only acquire, build and close connection, no auto-commit change, changes handling, execution or commit; counter unchanged; normal return |
| `WriteProperties.SqlFailureHandling` | src/main/java/com/datamountaineer/streamreactor/connect/jdbc/sink/writer/JdbcDbWriter.java:128-149 | on an `SQLException`: one rollback iff a connection was obtained; counter decremented by exactly one with no clamp (modulo 2^32); the policy, when not null, called exactly once, after the rollback, with the decremented counter; the exit follows the policy |
| `WriteProperties.FailedCallCommitsNothing` | src/main/java/com/datamountaineer/streamreactor/connect/jdbc/sink/writer/JdbcDbWriter.java:101-127 | a call whose try block throws before the commit makes no commit call, and executes no statement after the one that threw (none when it threw before the first execution) |
| `WriteProperties.ReleaseDiscipline` | src/main/java/com/datamountaineer/streamreactor/connect/jdbc/sink/writer/JdbcDbWriter.java:150-168 | on every path of a non-empty call each returned statement is closed exactly once (none when `build` threw), the connection exactly once iff obtained, all releases after every other call and all statements before the connection |
| `WriteProperties.SwallowedFailuresChangeNothing` | src/main/java/com/datamountaineer/streamreactor/connect/jdbc/sink/writer/JdbcDbWriter.java:139-166 | a throwing rollback or close changes neither which calls are made, nor how the call ends, nor the counter, nor the markers |
| `WriteProperties.ConsecutiveFailures` | src/main/java/com/datamountaineer/streamreactor/connect/jdbc/sink/writer/JdbcDbWriter.java:146 | k consecutive calls ending in an `SQLException` lower the counter by exactly k, with no lower bound |
| `WriteProperties.RecoveryRestores` | src/main/java/com/datamountaineer/streamreactor/connect/jdbc/sink/writer/JdbcDbWriter.java:122-123 | from a fresh writer, k failing calls leave `maxRetries - k`, and a following committed call restores `maxRetries` |
| `WriteProperties.RecoveryNoticeRaises` | src/main/java/com/datamountaineer/streamreactor/connect/jdbc/sink/writer/JdbcDbWriter.java:122-125 | as written, a call that commits once and resets the counter from 2 to 3 still ends with the recovery-format error |
| `WriteProperties.RecoveredCallReturns` | src/main/java/com/datamountaineer/streamreactor/connect/jdbc/sink/writer/JdbcDbWriter.java:120-126 | corrected, every committed call returns normally; as written it does so iff the counter was already at `maxRetries` |

## Left out

- Connection pooling, JDBC drivers and SQL execution: each collaborator call is a scripted success or exception. `DataSource`, `StatementBuilder` and `ErrorPolicy` are placeholders without state.
- What the pool does after `close()`: a call after close can be scripted as an exception at `getConnection`.
- The statement builder's, changes executor's and error policy's internals: their sources are not part of this model. The table-to-columns map passed to `handleChanges` is not modelled. The policy's decision is modelled only as "throws" or "returns".
- Logging and date formatting (lines 96, 124-125, 129-135, 142, 156, 165, 193, 195). The only exception is the recovery log line's format error, which is listed under Findings. `new Date()` is a clock reading passed to `Write` as `now`.
- The Java `assert` at line 130: it holds because the collection is not empty.
- Database metadata loading, dialect detection and the settings plumbing in `from` (lines 186-195, 209-217). `From` takes the mappings and the retry count directly.
- `getStatementBuilder` and `getErrorHandlingPolicy`: they return the stored collaborators, which are the public constant fields of `Writer`.
- Concurrency: there is none in the code. The counter fields are unsynchronized.
- JdbcDbWriter.Writer.Write: its `exit` follows the corrected recovery path of the finding below and is never the recovery-format error; `exitAsWritten` gives the exit as written. The trace and the counter are the same either way, because the error is raised after the commit and the reset, and the finally block still runs.

## Findings

| source | as written | input that shows it | evidently intended | confidence | as-written member | corrected member |
|---|---|---|---|---|---|---|
| src/main/java/com/datamountaineer/streamreactor/connect/jdbc/sink/writer/JdbcDbWriter.java:125 | the recovery message is formatted with `"Recovered from error % at %s"`; `"% a"` is a hexadecimal floating-point conversion with the space flag, applied to a `String`, so `String.format` throws an unchecked `IllegalFormatConversionException` after the commit and the counter reset | one record, one statement, no exception, `retries = 2`, `maxRetries = 3` (a previous call failed): the commit and reset happen and `write` then throws | a committed call returns normally and only logs its recovery (proved in `WriteProperties.RecoveredCallReturns`) | high, not executed | `WriteSpec.CallExitAsWritten` (shown by `WriteProperties.RecoveryNoticeRaises`) | `WriteSpec.CallExit` |
