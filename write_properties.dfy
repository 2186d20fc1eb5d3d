/**
 * What one call of `write`, and a run of calls, promise: the order of the
 * transaction, the error path, release of every resource exactly once, and
 * the arithmetic of the retry counter.
 */
module WriteProperties {
  import opened Wrappers
  import opened WriteSpec

  // ----- counting and shapes -----

  lemma {:induction false} CountAppend(a: seq<Event>, b: seq<Event>, e: Event)
    ensures Count(a + b, e) == Count(a, e) + Count(b, e)
  {
    if a == [] {
      assert a + b == b;
    } else {
      assert (a + b)[1..] == a[1..] + b;
      CountAppend(a[1..], b, e);
    }
  }

  lemma {:induction false} CountAbsent(t: seq<Event>, e: Event)
    requires forall x :: x in t ==> Shape(x) != Shape(e)
    ensures Count(t, e) == 0
  {
    if t != [] {
      assert t[0] in t;
      CountAbsent(t[1..], e);
    }
  }

  lemma {:induction false} CountSingle(x: Event, e: Event)
    ensures Count([x], e) == if Shape(x) == Shape(e) then 1 else 0
  {
    assert [x][1..] == [];
  }

  lemma {:induction false} ShapesAppend(a: seq<Event>, b: seq<Event>)
    ensures Shapes(a + b) == Shapes(a) + Shapes(b)
  {
    if a == [] {
      assert a + b == b;
    } else {
      assert (a + b)[1..] == a[1..] + b;
      ShapesAppend(a[1..], b);
    }
  }

  /** The `i`-th execution is of statement `i`, in the builder's batching mode. */
  lemma {:induction false} ExecsAt(k: nat, batched: bool)
    ensures |Execs(k, batched)| == k
    ensures forall i :: 0 <= i < k ==> Execs(k, batched)[i] == Exec(i, batched)
  {
    if k > 0 {
      ExecsAt(k - 1, batched);
    }
  }

  /** Executing `k` statements executes each of the first `k` exactly once and no other. */
  lemma {:induction false} ExecsCount(k: nat, batched: bool, i: nat)
    ensures Count(Execs(k, batched), Exec(i, batched)) == if i < k then 1 else 0
  {
    if k > 0 {
      ExecsCount(k - 1, batched, i);
      CountAppend(Execs(k - 1, batched), [Exec(k - 1, batched)], Exec(i, batched));
      CountSingle(Exec(k - 1, batched), Exec(i, batched));
    }
  }

  /** The `i`-th release is of statement `i`. */
  lemma {:induction false} ClosesAt(k: nat, failing: set<nat>)
    ensures |Closes(k, failing)| == k
    ensures forall i :: 0 <= i < k ==> Closes(k, failing)[i].CloseStmt? && Closes(k, failing)[i].index == i
  {
    if k > 0 {
      ClosesAt(k - 1, failing);
    }
  }

  /** Closing `k` statements closes each of the first `k` exactly once and no other. */
  lemma {:induction false} ClosesCount(k: nat, failing: set<nat>, i: nat)
    ensures Count(Closes(k, failing), CloseStmt(i, true)) == if i < k then 1 else 0
  {
    if k > 0 {
      ClosesCount(k - 1, failing, i);
      CountAppend(Closes(k - 1, failing), [CloseStmt(k - 1, k - 1 !in failing)], CloseStmt(i, true));
      CountSingle(CloseStmt(k - 1, k - 1 !in failing), CloseStmt(i, true));
    }
  }

  /** Whether a close throws does not change which statements are closed. */
  lemma {:induction false} ClosesShapes(k: nat, failing: set<nat>, failing': set<nat>)
    ensures Shapes(Closes(k, failing)) == Shapes(Closes(k, failing'))
  {
    if k > 0 {
      ClosesShapes(k - 1, failing, failing');
      ShapesAppend(Closes(k - 1, failing), [CloseStmt(k - 1, k - 1 !in failing)]);
      ShapesAppend(Closes(k - 1, failing'), [CloseStmt(k - 1, k - 1 !in failing')]);
    }
  }

  /** The try block makes no rollback, policy or release call. */
  lemma TryTraceCalls(s: Script)
    ensures forall e :: e in TryTrace(s) ==> !e.Rollback? && !e.Policy? && !e.IsRelease()
  {
    ExecsAt(s.statementCount, s.batching);
    if Reached(s) && s.fault.at.Execute? {
      ExecsAt(s.fault.at.index + 1, s.batching);
    }
  }

  /** The finally block makes only release calls. */
  lemma FinallyTraceCalls(s: Script)
    ensures forall e :: e in FinallyTrace(s) ==> e.IsRelease()
  {
    ClosesAt(s.statementCount, s.failingCloses);
  }

  // ----- one call -----

  /** The calls of a committed call, phase by phase. */
  lemma CommittedTrace(records: seq<SinkRecord>, s: Script, r: int32, policyPresent: bool)
    requires |records| > 0 && Committed(s)
    ensures CallTrace(records, s, r, policyPresent) ==
              (Opening() + Execs(s.statementCount, s.batching))
              + ([Event.Commit] + (Closes(s.statementCount, s.failingCloses) + [CloseConn(!s.connectionCloseFails)]))
  {
  }

  /**
   * A committed call: autocommit off, the changes handled, every statement
   * executed once in collection order and in the builder's batching mode,
   * one commit, then every statement and the connection released; the
   * counter is back at `maxRetries` and the call returns normally.
   */
  lemma CommittedCallOrder(records: seq<SinkRecord>, s: Script, r: int32, maxRetries: int32, policyPresent: bool)
    requires |records| > 0 && Committed(s)
    ensures var t := CallTrace(records, s, r, policyPresent);
      var k := s.statementCount;
      |t| == 2 * k + 6
      && t[..4] == [Event.Acquire, Event.Build, AutoCommitOff, Event.HandleChanges]
      && (forall i :: 0 <= i < k ==> t[4 + i] == Exec(i, s.batching))
      && t[4 + k] == Event.Commit
      && (forall i :: 0 <= i < k ==> Count(t, Exec(i, s.batching)) == 1)
      && Count(t, Event.Commit) == 1
      && (forall e :: e in t ==> !e.Rollback? && !e.Policy?)
      && t[|t| - 1] == CloseConn(!s.connectionCloseFails)
    ensures RetriesAfter(records, s, r, maxRetries) == maxRetries
    ensures CallExit(records, s, policyPresent) == Returned
  {
    var k := s.statementCount;
    CommittedTrace(records, s, r, policyPresent);
    ClosesAt(k, s.failingCloses);
    CommittedShape(CallTrace(records, s, r, policyPresent), k, s.batching,
                   Closes(k, s.failingCloses) + [CloseConn(!s.connectionCloseFails)]);
  }

  lemma CommittedShape(t: seq<Event>, k: nat, batched: bool, rel: seq<Event>)
    requires t == (Opening() + Execs(k, batched)) + ([Event.Commit] + rel)
    requires forall e :: e in rel ==> e.IsRelease()
    ensures |t| == |rel| + k + 5
    ensures t[..4] == [Event.Acquire, Event.Build, AutoCommitOff, Event.HandleChanges]
    ensures forall i :: 0 <= i < k ==> t[4 + i] == Exec(i, batched)
    ensures t[4 + k] == Event.Commit
    ensures forall i :: 0 <= i < k ==> Count(t, Exec(i, batched)) == 1
    ensures Count(t, Event.Commit) == 1
    ensures forall e :: e in t ==> !e.Rollback? && !e.Policy?
  {
    ExecsAt(k, batched);
    CommittedCount(Opening() + Execs(k, batched), rel);
    forall i | 0 <= i < k
      ensures Count(t, Exec(i, batched)) == 1
    {
      CommittedExecCount(k, batched, rel, i);
    }
  }

  lemma CommittedExecCount(k: nat, batched: bool, rel: seq<Event>, i: nat)
    requires i < k
    requires forall e :: e in rel ==> e.IsRelease()
    ensures Count((Opening() + Execs(k, batched)) + ([Event.Commit] + rel), Exec(i, batched)) == 1
  {
    var e := Exec(i, batched);
    CountAppend(Opening() + Execs(k, batched), [Event.Commit] + rel, e);
    CountAppend(Opening(), Execs(k, batched), e);
    CountAbsent(Opening(), e);
    CountAbsent([Event.Commit] + rel, e);
    ExecsCount(k, batched, i);
  }

  lemma CommittedCount(front: seq<Event>, rel: seq<Event>)
    requires forall e :: e in front ==> !e.Commit?
    requires forall e :: e in rel ==> e.IsRelease()
    ensures Count(front + ([Event.Commit] + rel), Event.Commit) == 1
  {
    CountAppend(front, [Event.Commit] + rel, Event.Commit);
    CountAppend([Event.Commit], rel, Event.Commit);
    CountSingle(Event.Commit, Event.Commit);
    CountAbsent(front, Event.Commit);
    CountAbsent(rel, Event.Commit);
  }

  /**
   * An empty statement collection: the connection is acquired, the builder
   * called and the connection released, with no transaction call at all;
   * the counter does not change.
   */
  lemma EmptyPlanCall(records: seq<SinkRecord>, s: Script, r: int32, maxRetries: int32, policyPresent: bool)
    requires |records| > 0 && !Reached(s) && s.statementCount == 0
    ensures CallTrace(records, s, r, policyPresent) ==
              [Event.Acquire, Event.Build, CloseConn(!s.connectionCloseFails)]
    ensures forall e :: e in CallTrace(records, s, r, policyPresent) ==> !e.IsTransactional()
    ensures RetriesAfter(records, s, r, maxRetries) == r
    ensures CallExit(records, s, policyPresent) == Returned
  {
  }

  /**
   * An SQLException anywhere in the try block: one rollback exactly when a
   * connection was obtained, the counter decremented once with no lower
   * bound (wrapping as a Java int), and the policy, when present, called
   * once after the rollback with the decremented counter.
   */
  lemma SqlFailureHandling(records: seq<SinkRecord>, s: Script, r: int32, maxRetries: int32, policyPresent: bool)
    requires |records| > 0 && SqlFailure(s)
    ensures var t := CallTrace(records, s, r, policyPresent);
      var msg := s.fault.error.message;
      Count(t, Rollback(true)) == (if s.fault.at != GetConnection then 1 else 0)
      && Count(t, Policy(Dec32(r), msg)) == (if policyPresent then 1 else 0)
      && (forall e :: e in t && e.Policy? ==> e == Policy(RetriesAfter(records, s, r, maxRetries), msg))
      && (forall p, q :: 0 <= p < |t| && 0 <= q < |t| && t[p].Rollback? && t[q].Policy? ==> p < q)
    ensures RetriesAfter(records, s, r, maxRetries) == Dec32(r)
    ensures r as int > MinInt32 ==> RetriesAfter(records, s, r, maxRetries) as int == r as int - 1
    ensures CallExit(records, s, policyPresent) ==
              if !policyPresent then NullPolicy else if s.policyThrows then PolicyRaised else Returned
  {
    var msg := s.fault.error.message;
    var rb := if ConnectionObtained(s) then [Rollback(!s.rollbackFails)] else [];
    var pc := if policyPresent then [Policy(Dec32(r), msg)] else [];
    assert CallTrace(records, s, r, policyPresent) == TryTrace(s) + (rb + pc) + FinallyTrace(s);
    TryTraceCalls(s);
    FinallyTraceCalls(s);
    CatchShape(CallTrace(records, s, r, policyPresent), TryTrace(s), rb, pc, FinallyTrace(s), Dec32(r), msg);
  }

  lemma CatchShape(t: seq<Event>, front: seq<Event>, rb: seq<Event>, pc: seq<Event>, back: seq<Event>,
                   v: int32, msg: string)
    requires t == front + (rb + pc) + back
    requires forall e :: e in front ==> !e.Rollback? && !e.Policy?
    requires forall e :: e in back ==> e.IsRelease()
    requires rb == [] || (|rb| == 1 && rb[0].Rollback?)
    requires pc == [] || pc == [Policy(v, msg)]
    ensures Count(t, Rollback(true)) == |rb|
    ensures Count(t, Policy(v, msg)) == |pc|
    ensures forall e :: e in t && e.Policy? ==> e == Policy(v, msg)
    ensures forall p, q :: 0 <= p < |t| && 0 <= q < |t| && t[p].Rollback? && t[q].Policy? ==> p < q
  {
    CatchCount(front, rb, pc, back, Rollback(true));
    CatchCount(front, rb, pc, back, Policy(v, msg));
    if rb != [] {
      CountSingle(rb[0], Rollback(true));
      CountSingle(rb[0], Policy(v, msg));
      assert rb == [rb[0]];
    }
    if pc != [] {
      CountSingle(pc[0], Rollback(true));
      CountSingle(pc[0], Policy(v, msg));
    }
    CatchOrder(t, front, rb, pc, back);
  }

  lemma CatchCount(front: seq<Event>, rb: seq<Event>, pc: seq<Event>, back: seq<Event>, e: Event)
    requires e.Rollback? || e.Policy?
    requires forall x :: x in front ==> !x.Rollback? && !x.Policy?
    requires forall x :: x in back ==> x.IsRelease()
    ensures Count(front + (rb + pc) + back, e) == Count(rb, e) + Count(pc, e)
  {
    CountAppend(front + (rb + pc), back, e);
    CountAppend(front, rb + pc, e);
    CountAppend(rb, pc, e);
    CountAbsent(front, e);
    CountAbsent(back, e);
  }

  lemma CatchOrder(t: seq<Event>, front: seq<Event>, rb: seq<Event>, pc: seq<Event>, back: seq<Event>)
    requires t == front + (rb + pc) + back
    requires forall e :: e in front ==> !e.Rollback? && !e.Policy?
    requires forall e :: e in back ==> e.IsRelease()
    requires forall e :: e in rb ==> e.Rollback?
    requires forall e :: e in pc ==> e.Policy?
    ensures forall p, q :: 0 <= p < |t| && 0 <= q < |t| && t[p].Rollback? && t[q].Policy? ==> p < q
  {
    assert forall p :: 0 <= p < |front| ==> t[p] in front;
    assert forall p :: |front| + |rb| + |pc| <= p < |t| ==> t[p] in back;
    assert forall p :: |front| <= p < |front| + |rb| ==> t[p] in rb;
    assert forall p :: |front| + |rb| <= p < |front| + |rb| + |pc| ==> t[p] in pc;
  }

  /**
   * A call whose try block throws before the commit commits nothing, and
   * executes no statement after the one that threw (none at all when it
   * threw before the first execution).
   */
  lemma FailedCallCommitsNothing(records: seq<SinkRecord>, s: Script, r: int32, policyPresent: bool)
    requires |records| > 0 && Reached(s) && s.fault.at != Step.Commit
    ensures Count(CallTrace(records, s, r, policyPresent), Event.Commit) == 0
    ensures forall e :: e in CallTrace(records, s, r, policyPresent) && e.Exec? ==>
              s.fault.at.Execute? && e.index <= s.fault.at.index
  {
    CallTraceParts(records, s, r, policyPresent);
    FailedTryTrace(s);
    FinallyTraceCalls(s);
    assert forall e :: e in CatchTrace(s, r, policyPresent) ==> e.Rollback? || e.Policy?;
    CountAbsent(CallTrace(records, s, r, policyPresent), Event.Commit);
  }

  lemma FailedTryTrace(s: Script)
    requires Reached(s) && s.fault.at != Step.Commit
    ensures forall e :: e in TryTrace(s) ==>
              !e.Commit? && (e.Exec? ==> s.fault.at.Execute? && e.index <= s.fault.at.index)
  {
    if s.fault.at.Execute? {
      ExecsAt(s.fault.at.index + 1, s.batching);
    }
  }

  /**
   * Every exit path of a non-empty call releases each statement the builder
   * returned exactly once (none when the builder threw) and the connection
   * exactly once when it was obtained; releases come after every other call,
   * and the statements before the connection.
   */
  lemma ReleaseDiscipline(records: seq<SinkRecord>, s: Script, r: int32, policyPresent: bool)
    requires |records| > 0
    ensures var t := CallTrace(records, s, r, policyPresent);
      (forall i: nat :: Count(t, CloseStmt(i, true)) == if StatementsObtained(s) && i < s.statementCount then 1 else 0)
      && Count(t, CloseConn(true)) == (if ConnectionObtained(s) then 1 else 0)
      && (forall p, q :: 0 <= p < q < |t| && t[p].IsRelease() ==> t[q].IsRelease())
      && (forall p, q :: 0 <= p < |t| && 0 <= q < |t| && t[p].CloseStmt? && t[q].CloseConn? ==> p < q)
    ensures Reached(s) && s.fault.at == Step.Build ==>
              forall e :: e in CallTrace(records, s, r, policyPresent) ==> !e.CloseStmt?
  {
    var front := TryTrace(s) + CatchTrace(s, r, policyPresent);
    var n := if StatementsObtained(s) then s.statementCount else 0;
    var cc := ConnectionRelease(s);
    assert CallTrace(records, s, r, policyPresent) == front + (Closes(n, s.failingCloses) + cc);
    TryTraceCalls(s);
    ReleaseShape(CallTrace(records, s, r, policyPresent), front, n, s.failingCloses, cc);
  }

  lemma ReleaseShape(t: seq<Event>, front: seq<Event>, n: nat, failing: set<nat>, cc: seq<Event>)
    requires t == front + (Closes(n, failing) + cc)
    requires forall e :: e in front ==> !e.IsRelease()
    requires cc == [] || (|cc| == 1 && cc[0].CloseConn?)
    ensures forall i: nat :: Count(t, CloseStmt(i, true)) == if i < n then 1 else 0
    ensures Count(t, CloseConn(true)) == |cc|
    ensures forall p, q :: 0 <= p < q < |t| && t[p].IsRelease() ==> t[q].IsRelease()
    ensures forall p, q :: 0 <= p < |t| && 0 <= q < |t| && t[p].CloseStmt? && t[q].CloseConn? ==> p < q
    ensures n == 0 ==> forall e :: e in t ==> !e.CloseStmt?
  {
    var cl := Closes(n, failing);
    ClosesAt(n, failing);
    if cc != [] {
      assert cc == [cc[0]];
    }
    forall i: nat
      ensures Count(t, CloseStmt(i, true)) == if i < n then 1 else 0
    {
      CountAppend(front, cl + cc, CloseStmt(i, true));
      CountAppend(cl, cc, CloseStmt(i, true));
      CountAbsent(front, CloseStmt(i, true));
      CountAbsent(cc, CloseStmt(i, true));
      ClosesCount(n, failing, i);
    }
    CountAppend(front, cl + cc, CloseConn(true));
    CountAppend(cl, cc, CloseConn(true));
    CountAbsent(front, CloseConn(true));
    CountAbsent(cl, CloseConn(true));
    if cc != [] {
      CountSingle(cc[0], CloseConn(true));
    }
    assert forall p :: 0 <= p < |front| ==> t[p] in front;
    assert forall p :: |front| <= p < |front| + |cl| ==> t[p] == cl[p - |front|];
    assert forall p :: |front| + |cl| <= p < |t| ==> t[p] == cc[p - |front| - |cl|];
  }

  /**
   * A failing rollback or close is swallowed: the calls made, the way the
   * call ends and the counter are the same whether or not they throw.
   */
  lemma SwallowedFailuresChangeNothing(records: seq<SinkRecord>, s: Script, s': Script, r: int32, maxRetries: int32,
                                       policyPresent: bool)
    requires s'.statementCount == s.statementCount && s'.batching == s.batching
    requires s'.fault == s.fault && s'.policyThrows == s.policyThrows
    ensures Shapes(CallTrace(records, s, r, policyPresent)) == Shapes(CallTrace(records, s', r, policyPresent))
    ensures CallExit(records, s, policyPresent) == CallExit(records, s', policyPresent)
    ensures RetriesAfter(records, s, r, maxRetries) == RetriesAfter(records, s', r, maxRetries)
    ensures RecordsFailure(records, s) == RecordsFailure(records, s')
  {
    if |records| > 0 {
      var n := if StatementsObtained(s) then s.statementCount else 0;
      CallTraceParts(records, s, r, policyPresent);
      CallTraceParts(records, s', r, policyPresent);
      TryTraceUnaffected(s, s');
      CatchShapes(s, s', r, policyPresent);
      CloseConnShapes(s, s');
      ClosesShapes(n, s.failingCloses, s'.failingCloses);
      ShapesOfParts(TryTrace(s), CatchTrace(s, r, policyPresent), FinallyTrace(s), Closes(n, s.failingCloses),
                    ConnectionRelease(s));
      ShapesOfParts(TryTrace(s'), CatchTrace(s', r, policyPresent), FinallyTrace(s'), Closes(n, s'.failingCloses),
                    ConnectionRelease(s'));
    }
  }

  lemma CallTraceParts(records: seq<SinkRecord>, s: Script, r: int32, policyPresent: bool)
    requires |records| > 0
    ensures CallTrace(records, s, r, policyPresent) == TryTrace(s) + CatchTrace(s, r, policyPresent) + FinallyTrace(s)
    ensures FinallyTrace(s) == Closes(if StatementsObtained(s) then s.statementCount else 0, s.failingCloses)
                               + ConnectionRelease(s)
  {
  }

  lemma TryTraceUnaffected(s: Script, s': Script)
    requires s'.statementCount == s.statementCount && s'.batching == s.batching && s'.fault == s.fault
    ensures TryTrace(s) == TryTrace(s')
  {
  }

  lemma CatchShapes(s: Script, s': Script, r: int32, policyPresent: bool)
    requires s'.statementCount == s.statementCount && s'.fault == s.fault
    ensures Shapes(CatchTrace(s, r, policyPresent)) == Shapes(CatchTrace(s', r, policyPresent))
  {
    var rb := if ConnectionObtained(s) && SqlFailure(s) then [Rollback(!s.rollbackFails)] else [];
    var rb' := if ConnectionObtained(s) && SqlFailure(s) then [Rollback(!s'.rollbackFails)] else [];
    var pc := if SqlFailure(s) && policyPresent then [Policy(Dec32(r), s.fault.error.message)] else [];
    assert CatchTrace(s, r, policyPresent) == rb + pc;
    assert CatchTrace(s', r, policyPresent) == rb' + pc;
    ShapesAppend(rb, pc);
    ShapesAppend(rb', pc);
  }

  lemma CloseConnShapes(s: Script, s': Script)
    requires s'.statementCount == s.statementCount && s'.fault == s.fault
    ensures Shapes(ConnectionRelease(s)) == Shapes(ConnectionRelease(s'))
  {
  }

  lemma ShapesOfParts(a: seq<Event>, b: seq<Event>, c: seq<Event>, d: seq<Event>, e: seq<Event>)
    requires c == d + e
    ensures Shapes(a + b + c) == Shapes(a) + Shapes(b) + (Shapes(d) + Shapes(e))
  {
    ShapesAppend(a + b, c);
    ShapesAppend(a, b);
    ShapesAppend(d, e);
  }

  // ----- runs of calls -----

  lemma {:induction false} RetriesAfterCallsAppend(a: seq<Call>, b: seq<Call>, r: int32, maxRetries: int32)
    ensures RetriesAfterCalls(a + b, r, maxRetries) ==
              RetriesAfterCalls(b, RetriesAfterCalls(a, r, maxRetries), maxRetries)
  {
    if a != [] {
      assert (a + b)[1..] == a[1..] + b;
      RetriesAfterCallsAppend(a[1..], b, RetriesAfter(a[0].records, a[0].script, r, maxRetries), maxRetries);
    } else {
      assert a + b == b;
    }
  }

  /** `k` consecutive calls that end in an SQLException lower the counter by exactly `k`, with no lower clamp. */
  lemma {:induction false} ConsecutiveFailures(calls: seq<Call>, r: int32, maxRetries: int32)
    requires forall c :: c in calls ==> |c.records| > 0 && SqlFailure(c.script)
    requires r as int - |calls| >= MinInt32
    ensures RetriesAfterCalls(calls, r, maxRetries) as int == r as int - |calls|
  {
    if calls != [] {
      assert calls[0] in calls;
      var r' := RetriesAfter(calls[0].records, calls[0].script, r, maxRetries);
      assert r' as int == r as int - 1;
      assert forall c :: c in calls[1..] ==> c in calls;
      ConsecutiveFailures(calls[1..], r', maxRetries);
    }
  }

  /** Failures from a fresh writer, then a committed call: the counter is back at `maxRetries`. */
  lemma {:induction false} RecoveryRestores(calls: seq<Call>, ok: Call, maxRetries: int32)
    requires forall c :: c in calls ==> |c.records| > 0 && SqlFailure(c.script)
    requires maxRetries as int - |calls| >= MinInt32
    requires |ok.records| > 0 && Committed(ok.script)
    ensures RetriesAfterCalls(calls, maxRetries, maxRetries) as int == maxRetries as int - |calls|
    ensures RetriesAfterCalls(calls + [ok], maxRetries, maxRetries) == maxRetries
  {
    ConsecutiveFailures(calls, maxRetries, maxRetries);
    RetriesAfterCallsAppend(calls, [ok], maxRetries, maxRetries);
    var r := RetriesAfterCalls(calls, maxRetries, maxRetries);
    assert [ok][1..] == [];
    assert RetriesAfterCalls([ok], r, maxRetries) == RetriesAfter(ok.records, ok.script, r, maxRetries);
  }

  // ----- the recovery log line -----

  /**
   * As written, a committed call that recovers from an earlier failure makes
   * `write` throw, although the transaction is committed and the counter reset.
   */
  lemma RecoveryNoticeRaises()
    ensures var records := [SinkRecord("orders", 0, 42)];
      var s := Script(1, false, NoFault, false, {}, false, false);
      CallExitAsWritten(records, s, 2, 3, true) == RecoveryFormatError
      && RetriesAfter(records, s, 2, 3) == 3
      && Count(CallTrace(records, s, 2, true), Event.Commit) == 1
  {
    var records := [SinkRecord("orders", 0, 42)];
    var s := Script(1, false, NoFault, false, {}, false, false);
    CommittedCallOrder(records, s, 2, 3, true);
  }

  /** With the recovery line not throwing, every committed call returns normally, recovering or not. */
  lemma RecoveredCallReturns(records: seq<SinkRecord>, s: Script, r: int32, maxRetries: int32, policyPresent: bool)
    requires |records| > 0 && Committed(s)
    ensures CallExit(records, s, policyPresent) == Returned
    ensures CallExitAsWritten(records, s, r, maxRetries, policyPresent) == Returned <==> r == maxRetries
  {
  }
}
