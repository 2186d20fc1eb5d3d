/**
 * `JdbcDbWriter`: writes a collection of sink records to the database in one
 * transaction, keeping a retry counter and the last failure across calls.
 */
module JdbcDbWriter {
  import opened Wrappers
  import opened WriteSpec

  /** The connection pool; its behaviour during a call is given by a `Script`. */
  datatype DataSource = DataSource
  /** Builds the prepared statements for a batch; its behaviour is given by a `Script`. */
  datatype StatementBuilder = StatementBuilder
  /** Decides what to do with a failed batch; its behaviour is given by a `Script`. */
  datatype ErrorPolicy = ErrorPolicy
  /** Creates tables and adds columns before the data statements run; only its configuration is modelled. */
  datatype ChangesExecutor = ChangesExecutor(
    tablesAllowingAutoCreate: set<string>,
    tablesAllowingSchemaEvolution: set<string>,
    retries: int32)

  /** One entry of the sink's table mappings. */
  datatype FieldsMappings = FieldsMappings(tableName: string, autoCreateTable: bool, evolveTableSchema: bool)

  class Writer {
    const dataSource: DataSource
    const statementBuilder: StatementBuilder
    const errorPolicy: Option<ErrorPolicy>   // not null-checked
    const changesExecutor: ChangesExecutor
    const maxRetries: int32
    var retries: int32
    var lastError: Option<int>               // time of the last SQLException
    var lastErrorMessage: Option<string>     // its message
    var poolClosed: bool

    constructor (dataSource: DataSource, statementBuilder: StatementBuilder, errorPolicy: Option<ErrorPolicy>,
                 changesExecutor: ChangesExecutor, retries: int32)
      ensures this.retries == retries && maxRetries == retries
      ensures this.dataSource == dataSource && this.statementBuilder == statementBuilder
      ensures this.errorPolicy == errorPolicy && this.changesExecutor == changesExecutor
      ensures lastError == None && lastErrorMessage == None && !poolClosed
    {
      this.dataSource := dataSource;
      this.statementBuilder := statementBuilder;
      this.errorPolicy := errorPolicy;
      this.changesExecutor := changesExecutor;
      this.retries := retries;
      this.maxRetries := retries;
      lastError := None;
      lastErrorMessage := None;
      poolClosed := false;
    }

    /**
     * The try block of `write` on a non-empty collection: the calls made, what
     * they threw, and which resources exist. `recoveryNoticeThrows` tells
     * whether the recovery log line, as written, throws after the commit and
     * the reset (an unchecked exception, so it leaves the try block uncaught).
     */
    method Attempt(s: Script)
      returns (trace: seq<Event>, thrown: Fault, connection: bool, statements: Option<nat>, recoveryNoticeThrows: bool)
      modifies this`retries
      ensures trace == TryTrace(s)
      ensures thrown == if Reached(s) then s.fault else NoFault
      ensures connection == ConnectionObtained(s)
      ensures statements == if StatementsObtained(s) then Some(s.statementCount) else None
      ensures retries == if Committed(s) then maxRetries else old(retries)
      ensures recoveryNoticeThrows <==> Committed(s) && old(retries) != maxRetries
    {
      trace, thrown, connection, statements, recoveryNoticeThrows := [Event.Acquire], NoFault, false, None, false;
      if s.RaisesAt(GetConnection) { thrown := s.fault; return; }
      connection := true;
      trace := trace + [Event.Build];
      if s.RaisesAt(Step.Build) { thrown := s.fault; return; }
      statements := Some(s.statementCount);
      if s.statementCount == 0 { return; }
      trace := trace + [AutoCommitOff];
      if s.RaisesAt(SetAutoCommit) { thrown := s.fault; return; }
      trace := trace + [Event.HandleChanges];
      if s.RaisesAt(Step.HandleChanges) { thrown := s.fault; return; }
      var i := 0;
      while i < s.statementCount
        invariant i <= s.statementCount
        invariant trace == Opening() + Execs(i, s.batching)
        invariant !(s.fault.Throws? && s.fault.at.Execute? && s.fault.at.index < i)
      {
        trace := trace + [Exec(i, s.batching)];
        if s.RaisesAt(Execute(i)) { thrown := s.fault; return; }
        i := i + 1;
      }
      trace := trace + [Event.Commit];
      if s.RaisesAt(Step.Commit) { thrown := s.fault; return; }
      if maxRetries != retries {
        retries := maxRetries;
        // the format string "% at %s" applies the `%a` conversion to a String
        recoveryNoticeThrows := true;
      }
    }

    /**
     * Writes `records` in one transaction. `s` scripts the collaborators,
     * `now` is the clock reading taken when a failure is recorded. Returns
     * the collaborator calls made and how the call ends: `exit` with the
     * recovery log line corrected, `exitAsWritten` with it as written.
     */
    method Write(records: seq<SinkRecord>, s: Script, now: int) returns (trace: seq<Event>, exit: Exit, exitAsWritten: Exit)
      modifies this`retries, this`lastError, this`lastErrorMessage
      ensures |records| == 0 ==> trace == [] && exit == Returned && retries == old(retries)
      ensures trace == CallTrace(records, s, old(retries), errorPolicy.Some?)
      ensures exit == CallExit(records, s, errorPolicy.Some?)
      ensures exitAsWritten == CallExitAsWritten(records, s, old(retries), maxRetries, errorPolicy.Some?)
      ensures retries == RetriesAfter(records, s, old(retries), maxRetries)
      ensures lastError == if RecordsFailure(records, s) then Some(now) else old(lastError)
      ensures lastErrorMessage == if RecordsFailure(records, s) then Some(s.fault.error.message)
                                  else old(lastErrorMessage)
    {
      if |records| == 0 {
        trace, exit, exitAsWritten := [], Returned, Returned;
        return;
      }
      var tried, thrown, connection, statements, recoveryNoticeThrows := Attempt(s);
      // catch (SQLException)
      var caught := [];
      exit := Returned;
      if thrown.Throws? && thrown.error.SqlException? {
        if connection {
          caught := caught + [Rollback(!s.rollbackFails)];
        }
        retries := Dec32(retries);
        lastError := Some(now);
        lastErrorMessage := Some(thrown.error.message);
        if errorPolicy.None? {
          exit := NullPolicy;
        } else {
          caught := caught + [Policy(retries, thrown.error.message)];
          if s.policyThrows {
            exit := PolicyRaised;
          }
        }
      } else if thrown.Throws? {
        exit := UncheckedRaised;
      }
      assert caught == CatchTrace(s, old(retries), errorPolicy.Some?);
      // finally
      var released := Release(statements, s.failingCloses, connection, s.connectionCloseFails);
      trace := tried + caught + released;
      exitAsWritten := if recoveryNoticeThrows then RecoveryFormatError else exit;
    }

    /** Shuts the connection pool down. */
    method Close()
      modifies this`poolClosed
      ensures poolClosed
    {
      poolClosed := true;
    }
  }

  /** The finally block of `write`: closes every statement, then the connection, swallowing close failures. */
  method Release(statements: Option<nat>, failingCloses: set<nat>, connection: bool, connectionCloseFails: bool)
    returns (trace: seq<Event>)
    ensures trace == (if statements.Some? then Closes(statements.value, failingCloses) else [])
                     + (if connection then [CloseConn(!connectionCloseFails)] else [])
  {
    trace := [];
    if statements.Some? {
      var j := 0;
      while j < statements.value
        invariant j <= statements.value
        invariant trace == Closes(j, failingCloses)
      {
        trace := trace + [CloseStmt(j, j !in failingCloses)];
        j := j + 1;
      }
    }
    if connection {
      trace := trace + [CloseConn(!connectionCloseFails)];
    }
  }

  /** The name of the first null argument the constructor rejects, if any; the error policy is not checked. */
  function NullArgument(dataSource: Option<DataSource>, statementBuilder: Option<StatementBuilder>,
                        changesExecutor: Option<ChangesExecutor>): (r: Option<string>)
    ensures r == None <==> dataSource.Some? && statementBuilder.Some? && changesExecutor.Some?
    ensures r == Some("hikariDataSource") <==> dataSource.None?
    ensures r == Some("statementBuilder") <==> dataSource.Some? && statementBuilder.None?
    ensures r == Some("databaseChangesExecutor") <==>
              dataSource.Some? && statementBuilder.Some? && changesExecutor.None?
  {
    if dataSource.None? then Some("hikariDataSource")
    else if statementBuilder.None? then Some("statementBuilder")
    else if changesExecutor.None? then Some("databaseChangesExecutor")
    else None
  }

  /** The constructor with its argument checks: a null argument is rejected with its name. */
  method Create(dataSource: Option<DataSource>, statementBuilder: Option<StatementBuilder>,
                errorPolicy: Option<ErrorPolicy>, changesExecutor: Option<ChangesExecutor>, retries: int32)
    returns (r: Result<Writer, string>)
    ensures r.Failure? <==> NullArgument(dataSource, statementBuilder, changesExecutor).Some?
    ensures r.Failure? ==> Some(r.error) == NullArgument(dataSource, statementBuilder, changesExecutor)
    ensures r.Success? ==> fresh(r.value) && r.value.retries == retries && r.value.maxRetries == retries
                           && r.value.errorPolicy == errorPolicy
                           && Some(r.value.changesExecutor) == changesExecutor
                           && r.value.lastError == None && r.value.lastErrorMessage == None
  {
    var missing := NullArgument(dataSource, statementBuilder, changesExecutor);
    if missing.Some? {
      return Failure(missing.value);
    }
    var w := new Writer(dataSource.value, statementBuilder.value, errorPolicy, changesExecutor.value, retries);
    return Success(w);
  }

  /** The loop of `from` that collects the tables allowing auto-creation and schema evolution. */
  method TablesAllowing(mappings: seq<FieldsMappings>) returns (autoCreate: set<string>, evolve: set<string>)
    ensures autoCreate == set m | m in mappings && m.autoCreateTable :: m.tableName
    ensures evolve == set m | m in mappings && m.evolveTableSchema :: m.tableName
  {
    autoCreate, evolve := {}, {};
    var i := 0;
    while i < |mappings|
      invariant i <= |mappings|
      invariant autoCreate == set m | m in mappings[..i] && m.autoCreateTable :: m.tableName
      invariant evolve == set m | m in mappings[..i] && m.evolveTableSchema :: m.tableName
    {
      var fm := mappings[i];
      assert mappings[..i + 1] == mappings[..i] + [fm];
      if fm.autoCreateTable {
        autoCreate := autoCreate + {fm.tableName};
      }
      if fm.evolveTableSchema {
        evolve := evolve + {fm.tableName};
      }
      i := i + 1;
    }
    assert mappings[..i] == mappings;
  }

  /** `from`: a writer whose changes executor allows the tables the mappings name, with `retries` attempts. */
  method From(mappings: seq<FieldsMappings>, retries: int32) returns (w: Writer)
    ensures fresh(w) && w.retries == retries && w.maxRetries == retries && w.errorPolicy.Some?
    ensures w.changesExecutor.tablesAllowingAutoCreate == set m | m in mappings && m.autoCreateTable :: m.tableName
    ensures w.changesExecutor.tablesAllowingSchemaEvolution ==
              set m | m in mappings && m.evolveTableSchema :: m.tableName
    ensures w.changesExecutor.retries == retries
  {
    var autoCreate, evolve := TablesAllowing(mappings);
    w := new Writer(DataSource, StatementBuilder, Some(ErrorPolicy), ChangesExecutor(autoCreate, evolve, retries), retries);
  }
}
