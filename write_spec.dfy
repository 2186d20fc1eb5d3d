/**
 * The observable behaviour of one call of `JdbcDbWriter.write`, stated as
 * functions of the call's inputs.
 *
 * The collaborators (connection pool, statement builder, changes executor,
 * error policy, the JDBC connection and statements) are opaque: a `Script`
 * says how they behave during one call, and the call produces the trace of
 * collaborator calls it makes, the way it exits, and the writer's new retry
 * counter and last-error markers.
 */
module WriteSpec {
  import opened Wrappers

  const MinInt32: int := -0x8000_0000
  const MaxInt32: int := 0x7fff_ffff

  /** Java's `int`, the type of the `retries` and `maxRetries` fields. */
  newtype int32 = x: int | -0x8000_0000 <= x < 0x8000_0000

  /** `retries--` on a Java `int`: the result is one less, modulo 2^32. */
  function Dec32(x: int32): (r: int32)
    ensures (x as int - 1 - r as int) % 0x1_0000_0000 == 0
    ensures x as int > MinInt32 ==> r as int == x as int - 1
  {
    if x as int == MinInt32 then MaxInt32 as int32 else x - 1
  }

  /** A Kafka record; its provenance is only used for log lines. */
  datatype SinkRecord = SinkRecord(topic: string, partition: int, offset: int)

  /** The calls of the try block that may throw. */
  datatype Step =
    | GetConnection          // dataSource.getConnection()
    | Build                  // statementBuilder.build(records, connection)
    | SetAutoCommit          // connection.setAutoCommit(false)
    | HandleChanges          // databaseChangesExecutor.handleChanges(...)
    | Execute(index: nat)    // statement.executeBatch() or statement.execute()
    | Commit                 // connection.commit()

  /** What a failing call throws: an SQLException, or anything else (not caught by `write`). */
  datatype Error = SqlException(message: string) | UncheckedException

  /** Where, if anywhere, the try block throws. A fault at a step the call never reaches has no effect. */
  datatype Fault = NoFault | Throws(at: Step, error: Error)

  /** How the collaborators behave during one call. */
  datatype Script = Script(
    statementCount: nat,           // size of the statement collection the builder returns
    batching: bool,                // statementBuilder.isBatching()
    fault: Fault,
    rollbackFails: bool,           // connection.rollback() throws (caught and logged)
    failingCloses: set<nat>,       // indices of statements whose close() throws (caught and logged)
    connectionCloseFails: bool,    // connection.close() throws (caught and logged)
    policyThrows: bool)            // errorHandlingPolicy.handle(...) throws
  {
    predicate RaisesAt(st: Step) {
      fault.Throws? && fault.at == st
    }
  }

  /** Collaborator calls made by one `write`, in order; a call that throws is still recorded. */
  datatype Event =
    | Acquire
    | Build
    | AutoCommitOff
    | HandleChanges
    | Exec(index: nat, batched: bool)
    | Commit
    | Rollback(ok: bool)
    | Policy(remaining: int32, message: string)
    | CloseStmt(index: nat, ok: bool)
    | CloseConn(ok: bool)
  {
    /** A release of a resource, done in the finally block. */
    predicate IsRelease() {
      CloseStmt? || CloseConn?
    }

    /** A call that belongs to the transaction proper. */
    predicate IsTransactional() {
      AutoCommitOff? || HandleChanges? || Exec? || Commit?
    }
  }

  /** How a call of `write` ends. */
  datatype Exit =
    | Returned              // normal return
    | PolicyRaised          // the error policy threw; propagates after cleanup
    | NullPolicy            // the error policy is null: NullPointerException after cleanup
    | UncheckedRaised       // a non-SQL exception from the try block; propagates after cleanup
    | RecoveryFormatError   // the recovery log line's format string throws (as written only)

  /** The event with its success flag dropped: which call was made, not whether it threw. */
  function Shape(e: Event): Event {
    match e
    case Rollback(_) => Rollback(true)
    case CloseStmt(i, _) => CloseStmt(i, true)
    case CloseConn(_) => CloseConn(true)
    case _ => e
  }

  /** Number of calls in `t` of the same shape as `e`. */
  function Count(t: seq<Event>, e: Event): nat {
    if t == [] then 0
    else (if Shape(t[0]) == Shape(e) then 1 else 0) + Count(t[1..], e)
  }

  function Shapes(t: seq<Event>): seq<Event> {
    if t == [] then [] else [Shape(t[0])] + Shapes(t[1..])
  }

  /** Whether the scripted fault is actually hit by the try block. */
  predicate Reached(s: Script) {
    s.fault.Throws? &&
    match s.fault.at
    case GetConnection => true
    case Build => true
    case Execute(i) => i < s.statementCount
    case _ => s.statementCount > 0
  }

  /** `connection != null` once the try block is left. */
  predicate ConnectionObtained(s: Script) {
    !(Reached(s) && s.fault.at == GetConnection)
  }

  /** `statements != null` once the try block is left. */
  predicate StatementsObtained(s: Script) {
    ConnectionObtained(s) && !(Reached(s) && s.fault.at == Step.Build)
  }

  /** The catch block runs. */
  predicate SqlFailure(s: Script) {
    Reached(s) && s.fault.error.SqlException?
  }

  /** The transaction is committed. */
  predicate Committed(s: Script) {
    !Reached(s) && s.statementCount > 0
  }

  function Opening(): seq<Event> {
    [Event.Acquire, Event.Build, AutoCommitOff, Event.HandleChanges]
  }

  /** Executions of the first `k` statements, in collection order. */
  function Execs(k: nat, batched: bool): seq<Event> {
    if k == 0 then [] else Execs(k - 1, batched) + [Exec(k - 1, batched)]
  }

  /** Closing of the first `k` statements, in collection order. */
  function Closes(k: nat, failing: set<nat>): seq<Event> {
    if k == 0 then [] else Closes(k - 1, failing) + [CloseStmt(k - 1, k - 1 !in failing)]
  }

  /** Calls made by the try block. */
  function TryTrace(s: Script): seq<Event> {
    if !Reached(s) then
      if s.statementCount == 0 then [Event.Acquire, Event.Build]
      else Opening() + Execs(s.statementCount, s.batching) + [Event.Commit]
    else
      match s.fault.at
      case GetConnection => [Event.Acquire]
      case Build => [Event.Acquire, Event.Build]
      case SetAutoCommit => [Event.Acquire, Event.Build, AutoCommitOff]
      case HandleChanges => Opening()
      case Execute(i) => Opening() + Execs(i + 1, s.batching)
      case Commit => Opening() + Execs(s.statementCount, s.batching) + [Event.Commit]
  }

  /** Calls made by the catch block; `r` is the counter before the call. */
  function CatchTrace(s: Script, r: int32, policyPresent: bool): seq<Event> {
    if SqlFailure(s) then
      (if ConnectionObtained(s) then [Rollback(!s.rollbackFails)] else [])
      + (if policyPresent then [Policy(Dec32(r), s.fault.error.message)] else [])
    else []
  }

  /** The finally block's release of the connection. */
  function ConnectionRelease(s: Script): seq<Event> {
    if ConnectionObtained(s) then [CloseConn(!s.connectionCloseFails)] else []
  }

  /** Calls made by the finally block. */
  function FinallyTrace(s: Script): seq<Event> {
    (if StatementsObtained(s) then Closes(s.statementCount, s.failingCloses) else []) + ConnectionRelease(s)
  }

  /** All calls made by one `write(records)`, given the counter `r` before it. */
  function CallTrace(records: seq<SinkRecord>, s: Script, r: int32, policyPresent: bool): seq<Event> {
    if |records| == 0 then [] else TryTrace(s) + CatchTrace(s, r, policyPresent) + FinallyTrace(s)
  }

  /** The counter after one `write(records)`, given the counter `r` before it. */
  function RetriesAfter(records: seq<SinkRecord>, s: Script, r: int32, maxRetries: int32): int32 {
    if |records| == 0 then r
    else if SqlFailure(s) then Dec32(r)
    else if Committed(s) then maxRetries
    else r
  }

  /** The last-error markers are set by the call. */
  predicate RecordsFailure(records: seq<SinkRecord>, s: Script) {
    |records| > 0 && SqlFailure(s)
  }

  /** How `write(records)` ends, with the recovery log line not throwing. */
  function CallExit(records: seq<SinkRecord>, s: Script, policyPresent: bool): (x: Exit)
    ensures x != RecoveryFormatError
    ensures |records| > 0 && Committed(s) ==> x == Returned
  {
    if |records| == 0 || !Reached(s) then Returned
    else match s.fault.error
      case UncheckedException => UncheckedRaised
      case SqlException(_) =>
        if !policyPresent then NullPolicy
        else if s.policyThrows then PolicyRaised
        else Returned
  }

  /**
   * How `write(records)` ends as the code is written: after a commit that
   * resets a counter different from `maxRetries`, the recovery log line
   * formats with "% at %s", whose "% a" is a hexadecimal floating-point
   * conversion applied to a String, which throws an unchecked exception.
   */
  function CallExitAsWritten(records: seq<SinkRecord>, s: Script, r: int32, maxRetries: int32,
                             policyPresent: bool): (x: Exit)
    ensures x == RecoveryFormatError <==> |records| > 0 && Committed(s) && r != maxRetries
  {
    if |records| > 0 && Committed(s) && r != maxRetries then RecoveryFormatError
    else CallExit(records, s, policyPresent)
  }

  /** One call of `write`, as seen by the retry counter. */
  datatype Call = Call(records: seq<SinkRecord>, script: Script)

  /** The counter after a sequence of calls, starting from `r`. */
  function RetriesAfterCalls(calls: seq<Call>, r: int32, maxRetries: int32): int32 {
    if calls == [] then r
    else RetriesAfterCalls(calls[1..], RetriesAfter(calls[0].records, calls[0].script, r, maxRetries), maxRetries)
  }
}
