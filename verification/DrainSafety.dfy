/** Every step of every interleaving keeps the invariant, so every reachable state has it. */
module DrainSafety {
  import opened Common
  import opened QueueRuntime
  import opened DrainProtocol
  import opened DrainInvariant
  import Guard

  // ---------------------------------------------------------------- frames of the history

  lemma {:induction false} FreshMeansNothing(log: History, id: nat)
    requires Fresh(log, id)
    ensures Executions(log, id) == Rollbacks(log, id) == Approvals(log, id) == 0
    ensures LastExecution(log, id) == None && !ApprovedSince(log, id)
  {
    if log.Then? { FreshMeansNothing(log.past, id); }
  }

  /** An event leaves a lineage's rollback count alone unless it is a rollback within the lineage. */
  lemma {:induction false} LineageRollbacksFrame(parents: seq<Option<nat>>, log: History, e: Event, id: nat)
    requires id < |parents| && Ordered(parents)
    requires e.RolledBack? ==> id != e.run && Some(e.run) !in parents
    ensures LineageRollbacks(parents, Then(log, e), id) == LineageRollbacks(parents, log, id)
  {
    if parents[id].Some? { LineageRollbacksFrame(parents, log, e, parents[id].value); }
  }

  lemma {:induction false} LineageApprovedMonotone(parents: seq<Option<nat>>, log: History, e: Event, id: nat)
    requires id < |parents| && Ordered(parents) && LineageApproved(parents, log, id)
    ensures LineageApproved(parents, Then(log, e), id)
  {
    if Approvals(log, id) == 0 { LineageApprovedMonotone(parents, log, e, parents[id].value); }
  }

  lemma {:induction false} LineageAppend(parents: seq<Option<nat>>, more: Option<nat>, log: History, id: nat)
    requires id < |parents| && Ordered(parents) && Ordered(parents + [more])
    ensures LineageRollbacks(parents + [more], log, id) == LineageRollbacks(parents, log, id)
    ensures LineageApproved(parents + [more], log, id) == LineageApproved(parents, log, id)
  {
    if parents[id].Some? { LineageAppend(parents, more, log, parents[id].value); }
  }

  lemma {:induction false} LogSafeAppend(parents: seq<Option<nat>>, more: Option<nat>, log: History)
    requires Ordered(parents) && Ordered(parents + [more]) && LogSafe(parents, log)
    ensures LogSafe(parents + [more], log)
  {
    if log.Then? {
      LogSafeAppend(parents, more, log.past);
      if log.last.run < |parents| { LineageAppend(parents, more, log.past, log.last.run); }
    }
  }

  lemma RunOkFrame(parents: seq<Option<nat>>, log: History, e: Event, id: nat, r: Run, held: bool)
    requires id < |parents| && Ordered(parents) && id != e.run
    requires e.RolledBack? ==> Some(e.run) !in parents
    requires RunOk(parents, log, id, r, held)
    ensures RunOk(parents, Then(log, e), id, r, held)
  {
    LineageRollbacksFrame(parents, log, e, id);
    if LineageApproved(parents, log, id) { LineageApprovedMonotone(parents, log, e, id); }
  }

  lemma WorkerOkFrame(rows: seq<Run>, parents: seq<Option<nat>>, log: History, e: Event, k: Worker)
    requires |parents| == |rows| && Ordered(parents) && RunOf(k) != Some(e.run)
    requires e.RolledBack? ==> Some(e.run) !in parents
    requires WorkerOk(rows, parents, log, k)
    ensures WorkerOk(rows, parents, Then(log, e), k)
  {
    if k.Working? {
      LineageRollbacksFrame(parents, log, e, k.id);
      if LineageApproved(parents, log, k.id) { LineageApprovedMonotone(parents, log, e, k.id); }
    }
  }

  // ---------------------------------------------------------------- shapes of steps

  lemma HeldFrame(workers: seq<Worker>, w: nat, k: Worker, id: nat)
    requires w < |workers| && (Holds(workers[w], id) <==> Holds(k, id))
    ensures Held(workers[w := k], id) == Held(workers, id)
  {
    var after := workers[w := k];
    if Held(workers, id) {
      var v :| 0 <= v < |workers| && Holds(workers[v], id);
      assert Holds(after[v], id);
    }
    if Held(after, id) {
      var v :| 0 <= v < |after| && Holds(after[v], id);
      assert Holds(workers[v], id);
    }
  }

  lemma OwnedFrame(workers: seq<Worker>, w: nat, k: Worker, id: nat)
    requires w < |workers| && (RunOf(workers[w]) == Some(id) ==> RunOf(k) == Some(id)) && Owned(workers, id)
    ensures Owned(workers[w := k], id)
  {
    var v :| 0 <= v < |workers| && RunOf(workers[v]) == Some(id);
    assert RunOf(workers[w := k][v]) == Some(id);
  }

  /** A worker moves on without touching the table or the history. */
  lemma LocalStep(s: System, w: nat, k: Worker)
    requires Inv(s) && w < |s.workers|
    requires RunOf(k) == RunOf(s.workers[w])
    requires forall id: nat :: Holds(s.workers[w], id) <==> Holds(k, id)
    requires WorkerOk(s.rows, s.parents, s.log, k)
    ensures Inv(SetWorker(s, w, k))
  {
    var t := SetWorker(s, w, k);
    forall id: nat | id < |s.rows|
      ensures RunOk(t.parents, t.log, id, t.rows[id], Held(t.workers, id))
    {
      HeldFrame(s.workers, w, k, id);
    }
    forall id: nat | id < |s.rows| && s.rows[id].state == Running ensures Owned(t.workers, id) {
      OwnedFrame(s.workers, w, k, id);
    }
  }

  lemma NotHeldByOthers(s: System, w: nat, id: nat)
    requires Inv(s) && w < |s.workers| && RunOf(s.workers[w]) == Some(id)
    ensures forall v | 0 <= v < |s.workers| && v != w :: RunOf(s.workers[v]) != Some(id)
  {
    forall v | 0 <= v < |s.workers| && v != w ensures RunOf(s.workers[v]) != Some(id) {
      if v < w { assert RunOf(s.workers[v]).Some? ==> RunOf(s.workers[w]) != RunOf(s.workers[v]); }
    }
  }

  lemma NotRunningNotOwned(s: System, id: nat)
    requires Inv(s) && id < |s.rows| && s.rows[id].state != Running
    ensures !Held(s.workers, id)
    ensures forall v | 0 <= v < |s.workers| :: RunOf(s.workers[v]) != Some(id)
  {
    forall v | 0 <= v < |s.workers| ensures RunOf(s.workers[v]) != Some(id) {
      assert WorkerOk(s.rows, s.parents, s.log, s.workers[v]);
    }
  }

  /** The owner writes its row and lets go of it. */
  lemma ReleaseStep(s: System, w: nat, id: nat, u: Update)
    requires Inv(s) && w < |s.workers| && RunOf(s.workers[w]) == Some(id) && id < |s.rows|
    requires u.state != Running
    requires u.params.Some? && u.params.value.Readable? && s.rows[id].params.Readable? ==>
               u.params.value.payload.queue.replayOfRunId == s.rows[id].params.payload.queue.replayOfRunId
    requires u.params.Some? ==> (u.params.value.Readable? <==> s.rows[id].params.Readable?)
    requires RunOk(s.parents, s.log, id, ApplyUpdate(s.rows[id], u), false)
    ensures Inv(SetWorker(WriteRow(s, id, u), w, Idle))
  {
    var t := SetWorker(WriteRow(s, id, u), w, Idle);
    NotHeldByOthers(s, w, id);
    assert WorkerOk(s.rows, s.parents, s.log, s.workers[w]);
    assert !Held(t.workers, id);
    forall i: nat | i < |t.rows| ensures RunOk(t.parents, t.log, i, t.rows[i], Held(t.workers, i)) {
      if i != id { HeldFrame(s.workers, w, Idle, i); }
    }
    forall i: nat | i < |t.rows| && t.rows[i].state == Running ensures Owned(t.workers, i) {
      OwnedFrame(s.workers, w, Idle, i);
    }
    forall v | 0 <= v < |t.workers| ensures WorkerOk(t.rows, t.parents, t.log, t.workers[v]) {
      assert WorkerOk(s.rows, s.parents, s.log, s.workers[v]);
    }
  }

  // ---------------------------------------------------------------- the steps

  /** The claimed row is running and has its owner; nobody else worked on it. */
  lemma ClaimKeepsWorkers(s: System, w: nat, now: int)
    requires Inv(s) && Enabled(s, TakeClaim(w, now)) && s.rows[s.workers[w].id].state == Queued
    ensures var t := Apply(s, TakeClaim(w, now));
            && SingleOwner(t.workers)
            && forall v | 0 <= v < |t.workers| :: WorkerOk(t.rows, t.parents, t.log, t.workers[v])
  {
    var t := Apply(s, TakeClaim(w, now));
    NotRunningNotOwned(s, s.workers[w].id);
    forall v | 0 <= v < |t.workers| ensures WorkerOk(t.rows, t.parents, t.log, t.workers[v]) {
      assert WorkerOk(s.rows, s.parents, s.log, s.workers[v]);
    }
  }

  lemma TakeClaimKeeps(s: System, w: nat, now: int)
    requires Inv(s) && Enabled(s, TakeClaim(w, now))
    ensures Inv(Apply(s, TakeClaim(w, now)))
  {
    var id := s.workers[w].id;
    if s.rows[id].state != Queued {
      LocalStep(s, w, Idle);
    } else {
      var t := Apply(s, TakeClaim(w, now));
      NotRunningNotOwned(s, id);
      ClaimKeepsWorkers(s, w, now);
      forall i: nat | i < |t.rows| ensures RunOk(t.parents, t.log, i, t.rows[i], Held(t.workers, i)) {
        HeldFrame(s.workers, w, Claimed(id), i);
      }
      forall i: nat | i < |t.rows| && t.rows[i].state == Running ensures Owned(t.workers, i) {
        if i == id { assert RunOf(t.workers[w]) == Some(id); }
        else { OwnedFrame(s.workers, w, Claimed(id), i); }
      }
    }
  }

  /** A release before execution keeps the run consistent with its history. */
  lemma AdmitRelease(parents: seq<Option<nat>>, log: History, id: nat, c: Claim, now: int, ttlNow: int)
    requires id < |parents| && Ordered(parents) && c.run.state == Running
    requires RunOk(parents, log, id, c.run, false)
    requires Admit(c, now, ttlNow).Release?
    ensures var u := Admit(c, now, ttlNow).update;
            && u.state != Running
            && (u.params.Some? ==> (u.params.value.Readable? <==> c.run.params.Readable?))
            && (u.params.Some? && c.run.params.Readable? ==>
                  u.params.value.payload.queue.replayOfRunId == c.run.params.payload.queue.replayOfRunId)
            && RunOk(parents, log, id, ApplyUpdate(c.run, u), false)
  {
    if c.run.params.Readable? {
      var q := c.run.params.payload.queue;
      var issues := Guard.Issues(c.run.params.payload.commands, c.policy.guard);
      assert MetaOk(Failed, BlockedByPolicy(q, issues, now));
      assert RecordOk(parents, log, id, BlockedByPolicy(q, issues, now));
    }
  }

  lemma CheckClaimKeeps(s: System, w: nat, now: int, ttlNow: int)
    requires Inv(s) && Enabled(s, CheckClaim(w, now, ttlNow))
    ensures Inv(Apply(s, CheckClaim(w, now, ttlNow)))
  {
    var c := s.workers[w];
    assert WorkerOk(s.rows, s.parents, s.log, c);
    if Admit(c.claim, now, ttlNow).Proceed? {
      LocalStep(s, w, Cleared(c.id, c.claim, now, ttlNow));
    } else {
      NotHeldByOthers(s, w, c.id);
      assert !Held(s.workers, c.id);
      AdmitRelease(s.parents, s.log, c.id, c.claim, now, ttlNow);
      ReleaseStep(s, w, c.id, Admit(c.claim, now, ttlNow).update);
    }
  }

  /** The execution that a cleared worker logs is a safe one. */
  lemma ExecutionIsSafe(parents: seq<Option<nat>>, log: History, id: nat, q: QueueMeta, now: int,
                        e: Event)
    requires id < |parents| && Ordered(parents) && LogSafe(parents, log)
    requires MetaOk(Running, q) && RecordOk(parents, log, id, q) && SpacingOk(log, id, q) && Ready(q, now)
    requires e.Executed? && e.run == id && e.at == now && e.number == q.attempts + 1
    requires e.needsApproval == q.approval.required
    ensures LogSafe(parents, Then(log, e))
    ensures LastExecution(log, id).Some? ==> q.attempts > 0
  {
    FirstExecution(log, id);
    RollbackNeedsExecution(parents, log, id);
  }

  lemma {:induction false} RollbackNeedsExecution(parents: seq<Option<nat>>, log: History, id: nat)
    requires Ordered(parents) && LogSafe(parents, log)
    ensures Rollbacks(log, id) > 0 ==> Executions(log, id) == 1
  {
    if log.Then? { RollbackNeedsExecution(parents, log.past, id); }
  }

  lemma {:induction false} FirstExecution(log: History, id: nat)
    ensures Executions(log, id) > 0 <==> LastExecution(log, id).Some?
  {
    if log.Then? { FirstExecution(log.past, id); }
  }

  lemma CommandsRan(parents: seq<Option<nat>>, log: History, id: nat, q: QueueMeta, a: Attempt,
                    e: Event)
    requires id < |parents| && Ordered(parents)
    requires MetaOk(Running, q) && RecordOk(parents, log, id, q) && !AwaitsApproval(q)
    requires e.Executed? && e.run == id
    requires a.queue.attempts == q.attempts + 1
    requires a.queue == q.(attempts := a.queue.attempts, lastAttemptAt := a.queue.lastAttemptAt)
    ensures LocalOk(q, AfterCommands, a)
    ensures RecordOk(parents, Then(log, e), id, a.queue)
  {
    LineageRollbacksFrame(parents, log, e, id);
    if LineageApproved(parents, log, id) { LineageApprovedMonotone(parents, log, e, id); }
  }

  lemma RunCommandsKeeps(s: System, w: nat, o: Outcome)
    requires Inv(s) && Enabled(s, RunCommands(w, o))
    ensures Inv(Apply(s, RunCommands(w, o)))
  {
    var c := s.workers[w];
    var q := c.claim.run.params.payload.queue;
    var a := AttemptCommands(q, c.now, o);
    var e := Executed(c.id, c.now, a.queue.attempts, c.claim.policy.retryBackoffSeconds,
                      c.claim.policy.retryBackoffMaxSeconds, q.approval.required);
    assert WorkerOk(s.rows, s.parents, s.log, c);
    NotHeldByOthers(s, w, c.id);
    assert !Held(s.workers, c.id);
    assert RunOk(s.parents, s.log, c.id, s.rows[c.id], false);
    assert Ready(q, c.now);
    ExecutionIsSafe(s.parents, s.log, c.id, q, c.now, e);
    CommandsRan(s.parents, s.log, c.id, q, a, e);
    WorkingStep(s, w, Working(c.id, c.claim, c.now, AfterCommands, a), e);
  }

  /** The owner logs an event about its run and keeps working on it. */
  lemma WorkingStep(s: System, w: nat, k: Worker, e: Event)
    requires Inv(s) && w < |s.workers| && RunOf(s.workers[w]) == Some(e.run) && Holds(k, e.run)
    requires e.run < |s.rows|
    requires WorkerOk(s.rows, s.parents, Then(s.log, e), k)
    requires LogSafe(s.parents, Then(s.log, e))
    requires s.rows[e.run].params.Readable?
    ensures Inv(Note(SetWorker(s, w, k), e))
  {
    var t := Note(SetWorker(s, w, k), e);
    var id := e.run;
    assert WorkerOk(s.rows, s.parents, s.log, s.workers[w]);
    NotHeldByOthers(s, w, id);
    assert Some(id) !in s.parents;
    assert Holds(t.workers[w], id);
    assert Held(t.workers, id);
    forall i: nat | i < |t.rows| ensures RunOk(t.parents, t.log, i, t.rows[i], Held(t.workers, i)) {
      if i != id {
        HeldFrame(s.workers, w, k, i);
        RunOkFrame(s.parents, s.log, e, i, s.rows[i], Held(s.workers, i));
      }
    }
    forall i: nat | i < |t.rows| && t.rows[i].state == Running ensures Owned(t.workers, i) {
      OwnedFrame(s.workers, w, k, i);
    }
    forall v | 0 <= v < |t.workers| ensures WorkerOk(t.rows, t.parents, t.log, t.workers[v]) {
      if v != w {
        assert WorkerOk(s.rows, s.parents, s.log, s.workers[v]);
        WorkerOkFrame(s.rows, s.parents, s.log, e, s.workers[v]);
      }
    }
  }

  lemma RunCanaryKeeps(s: System, w: nat, o: Outcome)
    requires Inv(s) && Enabled(s, RunCanary(w, o))
    ensures Inv(Apply(s, RunCanary(w, o)))
  {
    var c := s.workers[w];
    assert WorkerOk(s.rows, s.parents, s.log, c);
    LocalStep(s, w, c.(stage := AfterCanary, attempt := AttemptCanary(c.attempt, c.now, o)));
  }

  lemma RunRollbackKeeps(s: System, w: nat, o: Outcome)
    requires Inv(s) && Enabled(s, RunRollback(w, o))
    ensures Inv(Apply(s, RunRollback(w, o)))
  {
    var c := s.workers[w];
    var k := c.(stage := AfterRollback, attempt := AttemptRollback(c.attempt, c.now, o));
    assert WorkerOk(s.rows, s.parents, s.log, c);
    if RollbackDue(c.attempt) {
      var e := RolledBack(c.id);
      if s.parents[c.id].Some? { LineageRollbacksFrame(s.parents, s.log, e, s.parents[c.id].value); }
      if LineageApproved(s.parents, s.log, c.id) { LineageApprovedMonotone(s.parents, s.log, e, c.id); }
      WorkingStep(s, w, k, e);
    } else {
      LocalStep(s, w, k);
    }
  }

  /** Whatever a finished attempt settles to, the row agrees with its history. */
  lemma SettleOk(parents: seq<Option<nat>>, log: History, id: nat, run: Run, a: Attempt,
                 policy: Policy, now: int)
    requires id < |parents| && Ordered(parents) && run.state == Running && run.params.Readable?
    requires MetaOk(Running, run.params.payload.queue)
    requires LocalOk(run.params.payload.queue, AfterRollback, a)
    requires RecordOk(parents, log, id, a.queue) && !AwaitsApproval(a.queue)
    requires LastExecution(log, id).Some? && !ApprovedSince(log, id)
    requires var e := LastExecution(log, id).value;
             e.at == now && e.number == a.queue.attempts
             && e.baseSeconds == policy.retryBackoffSeconds && e.capSeconds == policy.retryBackoffMaxSeconds
    ensures var u := Settle(run.params.payload, a, policy, now);
            && u.state != Running && u.params.Some? && u.params.value.Readable?
            && u.params.value.payload.queue.replayOfRunId == run.params.payload.queue.replayOfRunId
            && RunOk(parents, log, id, ApplyUpdate(run, u), false)
  {
    var p := run.params.payload;
    var u := Settle(p, a, policy, now);
    var q := u.params.value.payload.queue;
    RetryDelayDoublesUpToCap(a.queue.attempts, policy.retryBackoffSeconds, policy.retryBackoffMaxSeconds);
    if u.state == Queued {
      assert NextRetryAt(now, RetryDelaySeconds(a.queue.attempts, policy.retryBackoffSeconds,
                                                policy.retryBackoffMaxSeconds))
             == DueAfter(LastExecution(log, id).value);
    }
    SettleMeta(run.params.payload.queue, p, a, policy, now);
    assert RecordOk(parents, log, id, q);
  }

  /** The metadata an iteration settles on fits the state it settles to. */
  lemma SettleMeta(before: QueueMeta, p: Payload, a: Attempt, policy: Policy, now: int)
    requires MetaOk(Running, before) && LocalOk(before, AfterRollback, a) && !AwaitsApproval(a.queue)
    ensures var u := Settle(p, a, policy, now);
            && u.state != Running && u.params.Some? && u.params.value.Readable?
            && MetaOk(u.state, u.params.value.payload.queue)
  {
  }

  lemma SettleRunKeeps(s: System, w: nat)
    requires Inv(s) && Enabled(s, SettleRun(w))
    ensures Inv(Apply(s, SettleRun(w)))
  {
    var c := s.workers[w];
    assert WorkerOk(s.rows, s.parents, s.log, c);
    assert RunOk(s.parents, s.log, c.id, s.rows[c.id], Held(s.workers, c.id));
    SettleOk(s.parents, s.log, c.id, c.claim.run, c.attempt, c.claim.policy, c.now);
    ReleaseStep(s, w, c.id, Settle(c.claim.run.params.payload, c.attempt, c.claim.policy, c.now));
  }

  /** A decision is written to a run nobody works on. */
  lemma DecisionStep(s: System, id: nat, u: Update)
    requires Inv(s) && id < |s.rows| && s.rows[id].state != Running && u.state != Running
    requires u.state == Queued ==> Some(id) !in s.parents
    requires s.rows[id].params.Readable? && u.params.Some? && u.params.value.Readable?
    requires u.params.value.payload.queue.replayOfRunId == s.rows[id].params.payload.queue.replayOfRunId
    requires RunOk(s.parents, s.log, id, ApplyUpdate(s.rows[id], u), false)
    ensures Inv(WriteRow(s, id, u))
  {
    var t := WriteRow(s, id, u);
    NotRunningNotOwned(s, id);
    forall v | 0 <= v < |t.workers| ensures WorkerOk(t.rows, t.parents, t.log, t.workers[v]) {
      assert WorkerOk(s.rows, s.parents, s.log, s.workers[v]);
    }
  }

  /** A run that is queued or running has not been replayed. */
  lemma ActiveIsNoParent(s: System, id: nat)
    requires Inv(s) && id < |s.rows| && Active(s.rows[id])
    ensures Some(id) !in s.parents
  {
  }

  /** Approval resets the wait and is itself on record. */
  lemma ApprovalOk(parents: seq<Option<nat>>, log: History, id: nat, r: Run,
                   now: int, actor: Option<string>, reason: Option<string>)
    requires id < |parents| && Ordered(parents) && RunOk(parents, log, id, r, false)
    requires r.state == Queued && r.params.Readable? && r.params.payload.queue.approval.required
    ensures var p := r.params.payload;
            var p' := p.(queue := ApprovedQueue(p.queue, now, actor, reason));
            RunOk(parents, Then(log, ApprovalGranted(id)), id,
                  ApplyUpdate(r, Update(Queued, Some(None), Some(None), Some(Readable(p')))), false)
  {
    LineageRollbacksFrame(parents, log, ApprovalGranted(id), id);
  }

  /** An approval is recorded and written to a run nobody works on. */
  lemma ApprovalStep(s: System, id: nat, u: Update)
    requires Inv(s) && id < |s.rows| && s.rows[id].state != Running && u.state == Queued && Some(id) !in s.parents
    requires s.rows[id].params.Readable? && u.params.Some? && u.params.value.Readable?
    requires u.params.value.payload.queue.replayOfRunId == s.rows[id].params.payload.queue.replayOfRunId
    requires RunOk(s.parents, Then(s.log, ApprovalGranted(id)), id, ApplyUpdate(s.rows[id], u), false)
    ensures Inv(Note(WriteRow(s, id, u), ApprovalGranted(id)))
  {
    var e := ApprovalGranted(id);
    var t := Note(WriteRow(s, id, u), e);
    NotRunningNotOwned(s, id);
    forall i: nat | i < |t.rows| ensures RunOk(t.parents, t.log, i, t.rows[i], Held(t.workers, i)) {
      if i != id { RunOkFrame(s.parents, s.log, e, i, s.rows[i], Held(s.workers, i)); }
    }
    forall v | 0 <= v < |t.workers| ensures WorkerOk(t.rows, t.parents, t.log, t.workers[v]) {
      assert WorkerOk(s.rows, s.parents, s.log, s.workers[v]);
      WorkerOkFrame(s.rows, s.parents, s.log, e, s.workers[v]);
    }
  }

  lemma ApproveKeeps(s: System, id: nat, now: int, actor: Option<string>, reason: Option<string>)
    requires Inv(s) && Enabled(s, Approve(id, now, actor, reason))
    ensures Inv(Apply(s, Approve(id, now, actor, reason)))
  {
    NotRunningNotOwned(s, id);
    assert RunOk(s.parents, s.log, id, s.rows[id], false);
    ApprovalOk(s.parents, s.log, id, s.rows[id], now, actor, reason);
    ActiveIsNoParent(s, id);
    var p := s.rows[id].params.payload;
    ApprovalStep(s, id,
      Update(Queued, Some(None), Some(None), Some(Readable(p.(queue := ApprovedQueue(p.queue, now, actor, reason))))));
  }

  lemma RejectKeeps(s: System, id: nat, now: int, actor: Option<string>, reason: Option<string>)
    requires Inv(s) && Enabled(s, Reject(id, now, actor, reason))
    ensures Inv(Apply(s, Reject(id, now, actor, reason)))
  {
    NotRunningNotOwned(s, id);
    assert RunOk(s.parents, s.log, id, s.rows[id], false);
    var p := s.rows[id].params.payload;
    DecisionStep(s, id, Update(Canceled, Some(None), Some(Some(now)),
      Some(Readable(p.(queue := RejectedQueue(p.queue, now, actor, reason))))));
  }

  /** A queued row is appended. */
  lemma AppendStep(s: System, r: Run, parent: Option<nat>)
    requires Inv(s) && r.state == Queued
    requires parent.Some? ==> parent.value < |s.rows| && !Active(s.rows[parent.value]) && r.params.Readable?
    requires r.params.Readable? ==>
               && MetaOk(Queued, r.params.payload.queue)
               && var q := r.params.payload.queue;
               && q.attempts == 0 && q.nextAttemptAt == None
               && q.replayOfRunId == (if parent.Some? then Some(Decimal(parent.value)) else None)
               && (q.approval.status == Approved ==> parent.Some? && LineageApproved(s.parents, s.log, parent.value))
               && (if q.rollback.attempted then 1 else 0)
                    == (if parent.Some? then LineageRollbacks(s.parents, s.log, parent.value) else 0)
    ensures Inv(s.(rows := s.rows + [r], parents := s.parents + [parent]))
  {
    var t := s.(rows := s.rows + [r], parents := s.parents + [parent]);
    var n := |s.rows|;
    FreshMeansNothing(s.log, n);
    LogSafeAppend(s.parents, parent, s.log);
    if parent.Some? { LineageAppend(s.parents, parent, s.log, parent.value); }
    forall v | 0 <= v < |t.workers| ensures WorkerOk(t.rows, t.parents, t.log, t.workers[v]) {
      assert WorkerOk(s.rows, s.parents, s.log, s.workers[v]);
      if t.workers[v].Working? { LineageAppend(s.parents, parent, s.log, t.workers[v].id); }
    }
    assert !Held(t.workers, n);
    forall i: nat | i < |t.rows| ensures RunOk(t.parents, t.log, i, t.rows[i], Held(t.workers, i)) {
      if i < n { LineageAppend(s.parents, parent, s.log, i); }
    }
  }

  /** Marking a dead-lettered source as reviewed is a write to a run nobody works on. */
  lemma ReviewStep(s: System, id: nat, now: int)
    requires Inv(s) && id < |s.rows| && s.rows[id].state == Failed && s.rows[id].params.Readable?
    ensures Inv(WriteRow(s, id, Reviewed(s.rows[id], now)))
  {
    var t := WriteRow(s, id, Reviewed(s.rows[id], now));
    NotRunningNotOwned(s, id);
    assert RunOk(s.parents, s.log, id, s.rows[id], false);
    forall v | 0 <= v < |t.workers| ensures WorkerOk(t.rows, t.parents, t.log, t.workers[v]) {
      assert WorkerOk(s.rows, s.parents, s.log, s.workers[v]);
    }
  }

  lemma ReplayKeeps(s: System, id: nat, now: int)
    requires Inv(s) && Enabled(s, Replay(id, now))
    ensures Inv(Apply(s, Replay(id, now)))
  {
    NotRunningNotOwned(s, id);
    var source := s.rows[id];
    assert RunOk(s.parents, s.log, id, source, false);
    var m := if source.state == Failed then WriteRow(s, id, Reviewed(source, now)) else s;
    if source.state == Failed { ReviewStep(s, id, now); }
    AppendStep(m, ReplayOf(source, id, now), Some(id));
    assert s.rows[id := source] == s.rows;
    assert Apply(s, Replay(id, now))
        == m.(rows := m.rows + [ReplayOf(source, id, now)], parents := m.parents + [Some(id)]);
  }

  /** Every step keeps the invariant, whatever the clock, the policy and the outcomes are. */
  lemma StepKeepsInv(s: System, step: Step)
    requires Inv(s)
    ensures Inv(Apply(s, step))
  {
    if Enabled(s, step) {
      match step
      case Enqueue(h, a, at, params, _) => AppendStep(s, NewRun(h, a, at, params), None);
      case Scan(w, id, _) => LocalStep(s, w, Picked(id));
      case TakeClaim(w, now) => TakeClaimKeeps(s, w, now);
      case Reread(w, hostEnabled, policy) =>
        var id := s.workers[w].id;
        assert WorkerOk(s.rows, s.parents, s.log, s.workers[w]);
        LocalStep(s, w, Loaded(id, Claim(s.rows[id], hostEnabled, policy)));
      case CheckClaim(w, now, ttlNow) => CheckClaimKeeps(s, w, now, ttlNow);
      case RunCommands(w, o) => RunCommandsKeeps(s, w, o);
      case RunCanary(w, o) => RunCanaryKeeps(s, w, o);
      case RunRollback(w, o) => RunRollbackKeeps(s, w, o);
      case SettleRun(w) => SettleRunKeeps(s, w);
      case Approve(id, now, actor, reason) => ApproveKeeps(s, id, now, actor, reason);
      case Reject(id, now, actor, reason) => RejectKeeps(s, id, now, actor, reason);
      case Replay(id, now) => ReplayKeeps(s, id, now);
    }
  }

  /** Any number of workers, any interleaving of any steps: the invariant holds throughout. */
  lemma {:induction false} ReachableInv(workers: nat, steps: seq<Step>)
    ensures Inv(Play(Init(workers), steps))
    decreases |steps|
  {
    if steps != [] {
      ReachableInv(workers, steps[..|steps| - 1]);
      StepKeepsInv(Play(Init(workers), steps[..|steps| - 1]), steps[|steps| - 1]);
    }
  }

  // ---------------------------------------------------------------- histories

  lemma {:induction false} PlayConcat(s: System, a: seq<Step>, b: seq<Step>)
    ensures Play(s, a + b) == Play(Play(s, a), b)
    decreases |b|
  {
    if b == [] {
      assert a + b == a;
    } else {
      PlayConcat(s, a, b[..|b| - 1]);
      assert (a + b)[..|a + b| - 1] == a + b[..|b| - 1];
    }
  }

  lemma PlayOne(s: System, trace: seq<Step>, step: Step)
    ensures Play(s, trace + [step]) == Apply(Play(s, trace), step)
  {
    assert (trace + [step])[..|trace|] == trace;
  }

  lemma PlayFew(s: System, a: Step, b: Step, c: Step, d: Step)
    ensures Play(s, [a]) == Apply(s, a)
    ensures Play(s, [a] + [b, c]) == Apply(Apply(Apply(s, a), b), c)
    ensures Play(s, [a] + [b, c, d]) == Apply(Apply(Apply(Apply(s, a), b), c), d)
  {
    PlayOne(s, [], a);
    PlayOne(s, [a], b);
    PlayOne(s, [a] + [b], c);
    PlayOne(s, [a] + [b] + [c], d);
    assert [] + [a] == [a] && [a] + [b, c] == [a] + [b] + [c] && [a] + [b, c, d] == [a] + [b] + [c] + [d];
  }

  lemma {:induction false} PlayKeepsInv(s: System, steps: seq<Step>)
    requires Inv(s)
    ensures Inv(Play(s, steps))
    decreases |steps|
  {
    if steps != [] {
      PlayKeepsInv(s, steps[..|steps| - 1]);
      StepKeepsInv(Play(s, steps[..|steps| - 1]), steps[|steps| - 1]);
    }
  }
}
