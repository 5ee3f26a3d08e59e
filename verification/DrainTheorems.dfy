/** What the remediation queue guarantees in every reachable state, for any number of drain
    workers, any interleaving, any clock, any policies and any command outcomes. */
module DrainTheorems {
  import opened Common
  import opened QueueRuntime
  import opened DrainProtocol
  import opened DrainInvariant
  import opened DrainSafety
  import Guard

  // ---------------------------------------------------------------- what one step may do to one row

  /** What a run is asked to do, and whether it needs an approval for it. */
  predicate SameRequest(p: Payload, p': Payload) {
    var q, q' := p.queue, p'.queue;
    && p'.actionId == p.actionId && p'.commands == p.commands && p'.sourceCodes == p.sourceCodes
    && p'.rollbackNotes == p.rollbackNotes && p'.profile == p.profile
    && q'.maxAttempts == q.maxAttempts && q'.replayOfRunId == q.replayOfRunId
    && q'.approval.required == q.approval.required
    && q'.canary.enabled == q.canary.enabled && q'.canary.checks == q.canary.checks
    && q'.canary.rolloutPercent == q.canary.rolloutPercent && q'.canary.bucket == q.canary.bucket
    && q'.canary.selected == q.canary.selected
    && q'.rollback.enabled == q.rollback.enabled && q'.rollback.commands == q.rollback.commands
    && q'.autoQueued == q.autoQueued && q'.autoReason == q.autoReason && q'.autoTier == q.autoTier
  }

  ghost predicate RowMoves(s: System, step: Step, t: System, id: nat)
    requires id < |s.rows| <= |t.rows|
  {
    var r := s.rows[id];
    var r' := t.rows[id];
    && SameTarget(r', r.hostId, r.actionId) && r'.requestedAt == r.requestedAt
    && (Active(r') ==> Active(r))
    && (r.params.Readable? <==> r'.params.Readable?)
    && (r.params.Readable? ==>
          var p, p' := r.params.payload, r'.params.payload;
          && SameRequest(p, p')
          && (p'.queue.approval != p.queue.approval ==> (step.Approve? || step.Reject?) && step.id == id))
    && (r.state == Running && r' != r ==>
          IsWorkerStep(step) && step.w < |s.workers| && RunOf(s.workers[step.w]) == Some(id))
    && Executions(t.log, id) == Executions(s.log, id)
         + (if step.RunCommands? && Enabled(s, step) && s.workers[step.w].id == id then 1 else 0)
  }

  lemma CheckMoves(s: System, step: Step, id: nat)
    requires Inv(s) && step.CheckClaim? && Enabled(s, step) && id < |s.rows|
    ensures RowMoves(s, step, Apply(s, step), id)
  {
    var k := s.workers[step.w];
    assert WorkerOk(s.rows, s.parents, s.log, k);
    if Admit(k.claim, step.now, step.ttlNow).Release? && id == k.id {
      ReleaseMoves(s.rows[id], k.claim, step.now, step.ttlNow);
    }
  }

  lemma ReleaseMoves(r: Run, c: Claim, now: int, ttlNow: int)
    requires c.run == r && r.state == Running && Admit(c, now, ttlNow).Release?
    ensures var r' := ApplyUpdate(r, Admit(c, now, ttlNow).update);
            && SameTarget(r', r.hostId, r.actionId) && r'.requestedAt == r.requestedAt
            && (r.params.Readable? <==> r'.params.Readable?)
            && (r.params.Readable? ==>
                  && SameRequest(r.params.payload, r'.params.payload)
                  && r'.params.payload.queue.approval == r.params.payload.queue.approval)
  {
  }

  lemma SettleKeepsRequest(p: Payload, a: Attempt, policy: Policy, now: int)
    requires LocalOk(p.queue, AfterRollback, a)
    ensures var u := Settle(p, a, policy, now);
            && u.state != Running && u.params.Some? && u.params.value.Readable?
            && (var p' := u.params.value.payload;
                && SameRequest(p, p') && p'.queue.approval == p.queue.approval
                && p'.queue.attempts == p.queue.attempts + 1)
  {
  }

  lemma SettleMoves(s: System, step: Step, id: nat)
    requires Inv(s) && step.SettleRun? && Enabled(s, step) && id < |s.rows|
    ensures RowMoves(s, step, Apply(s, step), id)
  {
    var k := s.workers[step.w];
    assert WorkerOk(s.rows, s.parents, s.log, k);
    SettleKeepsRequest(k.claim.run.params.payload, k.attempt, k.claim.policy, k.now);
    SettleWrites(s, step.w, Settle(k.claim.run.params.payload, k.attempt, k.claim.policy, k.now));
  }

  lemma SettleWrites(s: System, w: nat, u: Update)
    requires Enabled(s, SettleRun(w))
    requires var k := s.workers[w]; u == Settle(k.claim.run.params.payload, k.attempt, k.claim.policy, k.now)
    ensures Apply(s, SettleRun(w)) == SetWorker(WriteRow(s, s.workers[w].id, u), w, Idle)
  {
  }

  lemma RowCount(s: System, step: Step)
    ensures |s.rows| <= |Apply(s, step).rows| <= |s.rows| + 1
    ensures !step.Enqueue? && !step.Replay? ==> |Apply(s, step).rows| == |s.rows|
  {
  }

  lemma ClaimMoves(s: System, step: Step, id: nat)
    requires Inv(s) && step.TakeClaim? && Enabled(s, step) && id < |s.rows|
    ensures RowMoves(s, step, Apply(s, step), id)
  {
  }

  lemma DecisionMoves(s: System, step: Step, id: nat)
    requires Inv(s) && (step.Approve? || step.Reject?) && Enabled(s, step) && id < |s.rows|
    ensures RowMoves(s, step, Apply(s, step), id)
  {
  }

  lemma EnqueueMoves(s: System, step: Step, id: nat)
    requires Inv(s) && step.Enqueue? && Enabled(s, step) && id < |s.rows|
    ensures RowMoves(s, step, Apply(s, step), id)
  {
    assert Apply(s, step).rows[id] == s.rows[id];
  }

  lemma ReplayMoves(s: System, step: Step, id: nat)
    requires Inv(s) && step.Replay? && Enabled(s, step) && id < |s.rows|
    ensures RowMoves(s, step, Apply(s, step), id)
  {
  }

  lemma QuietMoves(s: System, step: Step, id: nat)
    requires Inv(s) && id < |s.rows|
    requires step.Scan? || step.Reread? || step.RunCanary? || step.RunRollback? || !Enabled(s, step)
    ensures RowMoves(s, step, Apply(s, step), id)
  {
    assert Apply(s, step).rows == s.rows;
  }

  lemma ExecutionMoves(s: System, step: Step, id: nat)
    requires Inv(s) && step.RunCommands? && Enabled(s, step) && id < |s.rows|
    ensures RowMoves(s, step, Apply(s, step), id)
  {
    assert Apply(s, step).rows == s.rows;
  }

  lemma StepMoves(s: System, step: Step, id: nat)
    requires Inv(s) && id < |s.rows|
    ensures |s.rows| <= |Apply(s, step).rows|
    ensures RowMoves(s, step, Apply(s, step), id)
  {
    RowCount(s, step);
    if !Enabled(s, step) {
      QuietMoves(s, step, id);
    } else {
      match step
      case TakeClaim(_, _) => ClaimMoves(s, step, id);
      case CheckClaim(_, _, _) => CheckMoves(s, step, id);
      case RunCommands(_, _) => ExecutionMoves(s, step, id);
      case SettleRun(_) => SettleMoves(s, step, id);
      case Approve(_, _, _, _) => DecisionMoves(s, step, id);
      case Reject(_, _, _, _) => DecisionMoves(s, step, id);
      case Replay(_, _) => ReplayMoves(s, step, id);
      case Enqueue(_, _, _, _, _) => EnqueueMoves(s, step, id);
      case _ => QuietMoves(s, step, id);
    }
  }

  // ---------------------------------------------------------------- ownership

  /** The worker owns the run alone, and only a step of its own changes the row. */
  predicate SoleWriter(s: System, step: Step, id: nat, w: nat)
    requires id < |s.rows|
  {
    var t := Apply(s, step);
    && w < |s.workers| && RunOf(s.workers[w]) == Some(id)
    && (forall v | 0 <= v < |s.workers| && RunOf(s.workers[v]) == Some(id) :: v == w)
    && id < |t.rows|
    && (t.rows[id] != s.rows[id] ==> IsWorkerStep(step) && step.w == w)
  }

  lemma OwnerWrites(s: System, step: Step, id: nat, w: nat)
    requires Inv(s) && id < |s.rows| && s.rows[id].state == Running
    requires w < |s.workers| && RunOf(s.workers[w]) == Some(id)
    ensures SoleWriter(s, step, id, w)
  {
    NotHeldByOthers(s, w, id);
    StepMoves(s, step, id);
  }

  /** A running run has exactly one owner, and no step but one of the owner's changes its row. */
  lemma OnlyTheOwnerWrites(workers: nat, steps: seq<Step>, step: Step, id: nat)
    requires var s := Play(Init(workers), steps); id < |s.rows| && s.rows[id].state == Running
    ensures exists w: nat :: SoleWriter(Play(Init(workers), steps), step, id, w)
  {
    var s := Play(Init(workers), steps);
    ReachableInv(workers, steps);
    assert Owned(s.workers, id);
    var w :| 0 <= w < |s.workers| && RunOf(s.workers[w]) == Some(id);
    OwnerWrites(s, step, id, w);
  }

  /** The write that ends an iteration starts from the row as it is, not from a stale copy of it:
      it adds exactly the one attempt that was executed, and keeps the operator's approval. */
  lemma NoAttemptIsLost(workers: nat, steps: seq<Step>, w: nat)
    requires Enabled(Play(Init(workers), steps), SettleRun(w))
    ensures var s := Play(Init(workers), steps);
            var id := s.workers[w].id;
            var t := Apply(s, SettleRun(w));
            && id < |s.rows| && s.rows[id].params.Readable? && t.rows[id].params.Readable?
            && (var before := s.rows[id].params.payload;
                var after := t.rows[id].params.payload;
                && after.queue.attempts == before.queue.attempts + 1 == Executions(s.log, id)
                && after.queue.approval == before.queue.approval
                && SameRequest(before, after))
  {
    var s := Play(Init(workers), steps);
    ReachableInv(workers, steps);
    var k := s.workers[w];
    assert WorkerOk(s.rows, s.parents, s.log, k);
    SettleKeepsRequest(k.claim.run.params.payload, k.attempt, k.claim.policy, k.now);
    SettleWrites(s, w, Settle(k.claim.run.params.payload, k.attempt, k.claim.policy, k.now));
  }

  /** The stored attempt counter is the number of times the commands have run, up to the one
      execution whose iteration has not yet written its row. */
  lemma AttemptsCountExecutions(workers: nat, steps: seq<Step>, id: nat)
    requires var s := Play(Init(workers), steps); id < |s.rows| && s.rows[id].params.Readable?
    ensures var s := Play(Init(workers), steps);
            var q := s.rows[id].params.payload.queue;
            && Executions(s.log, id) == q.attempts + (if Held(s.workers, id) then 1 else 0)
            && Executions(s.log, id) <= q.maxAttempts <= 20
            && (Active(s.rows[id]) ==> q.attempts < q.maxAttempts)
  {
    var s := Play(Init(workers), steps);
    ReachableInv(workers, steps);
    assert RunOk(s.parents, s.log, id, s.rows[id], Held(s.workers, id));
    if Held(s.workers, id) {
      var w :| 0 <= w < |s.workers| && Holds(s.workers[w], id);
      assert WorkerOk(s.rows, s.parents, s.log, s.workers[w]);
    }
  }

  // ---------------------------------------------------------------- execution

  /** The checks between claim and execution let through exactly the runs that may execute. */
  lemma AdmissionIsExact(c: Claim, now: int, ttlNow: int)
    ensures Admit(c, now, ttlNow).Proceed? <==>
            && c.hostEnabled
            && 0 <= ttlNow - c.run.requestedAt <= 60_000 * c.policy.queueTtlMinutes
            && c.run.params.Readable?
            && (var p := c.run.params.payload;
                && !p.queue.dlq
                && (p.queue.approval.required ==> p.queue.approval.status == Approved)
                && (p.queue.nextAttemptAt == None || p.queue.nextAttemptAt.value <= now)
                && Guard.Accepted(p.commands, c.policy.guard))
  {
    if c.run.params.Readable? { Guard.GuardIsExact(c.run.params.payload.commands, c.policy.guard); }
  }

  /** However stale the read that picked the candidate, the commands run only for a row that, in
      the table at that moment, is running, readable, not dead-lettered, approved if it must be,
      due and within its time to live, on an enabled host, with commands the guard accepts. */
  lemma ExecutionIsAuthorized(workers: nat, steps: seq<Step>, w: nat, o: Outcome)
    requires Enabled(Play(Init(workers), steps), RunCommands(w, o))
    ensures var s := Play(Init(workers), steps);
            var k := s.workers[w];
            && |s.parents| == |s.rows| && Ordered(s.parents)
            && k.id < |s.rows| && s.rows[k.id].state == Running && s.rows[k.id] == k.claim.run
            && k.claim.hostEnabled
            && 0 <= k.ttlNow - s.rows[k.id].requestedAt <= 60_000 * k.claim.policy.queueTtlMinutes
            && s.rows[k.id].params.Readable?
            && (var p := s.rows[k.id].params.payload;
                && !p.queue.dlq
                && (p.queue.approval.required ==>
                      p.queue.approval.status == Approved && LineageApproved(s.parents, s.log, k.id))
                && (p.queue.nextAttemptAt.Some? ==> p.queue.nextAttemptAt.value <= k.now)
                && p.queue.attempts < p.queue.maxAttempts
                && Rollbacks(s.log, k.id) == 0
                && Guard.Accepted(p.commands, k.claim.policy.guard))
  {
    var s := Play(Init(workers), steps);
    var k := s.workers[w];
    ReachableInv(workers, steps);
    assert WorkerOk(s.rows, s.parents, s.log, k);
    AdmissionIsExact(k.claim, k.now, k.ttlNow);
    NotHeldByOthers(s, w, k.id);
    assert !Held(s.workers, k.id);
    assert RunOk(s.parents, s.log, k.id, s.rows[k.id], false);
    RollbackNeedsExecution(s.parents, s.log, k.id);
  }

  /** The event e was logged right after past. */
  predicate Logged(log: History, past: History, e: Event) {
    log.Then? && ((log.past == past && log.last == e) || Logged(log.past, past, e))
  }

  lemma {:induction false} LoggedSafely(parents: seq<Option<nat>>, log: History, past: History, e: Event)
    requires Ordered(parents) && LogSafe(parents, log) && Logged(log, past, e)
    ensures LogSafe(parents, Then(past, e))
  {
    if !(log.past == past && log.last == e) { LoggedSafely(parents, log.past, past, e); }
  }

  /** Read off the log alone, for every execution in it: an approval-required run had by then been
      approved, itself or as a run it was replayed from; its attempts are numbered without gaps; it
      had not been rolled back; and unless an operator approved it in between, at least the capped
      doubling delay had passed since its previous execution. */
  lemma EveryLoggedExecution(workers: nat, steps: seq<Step>, past: History, e: Event)
    requires e.Executed? && Logged(Play(Init(workers), steps).log, past, e)
    ensures var s := Play(Init(workers), steps);
            && e.run < |s.parents| && Ordered(s.parents)
            && (e.needsApproval ==> LineageApproved(s.parents, past, e.run))
            && e.number == Executions(past, e.run) + 1
            && Rollbacks(past, e.run) == 0
            && (var previous := LastExecution(past, e.run);
                previous.Some? && !ApprovedSince(past, e.run) ==>
                  e.at >= previous.value.at + 1000 * RetryDelaySeconds(e.number - 1, previous.value.baseSeconds,
                                                                       previous.value.capSeconds))
  {
    var s := Play(Init(workers), steps);
    ReachableInv(workers, steps);
    LoggedSafely(s.parents, s.log, past, e);
    if LastExecution(past, e.run).Some? { LastExecutionNumber(s.parents, past, e.run); }
  }

  lemma {:induction false} LastExecutionNumber(parents: seq<Option<nat>>, log: History, id: nat)
    requires Ordered(parents) && LogSafe(parents, log) && LastExecution(log, id).Some?
    ensures LastExecution(log, id).value.number == Executions(log, id)
  {
    if !(log.last.Executed? && log.last.run == id) { LastExecutionNumber(parents, log.past, id); }
  }

  // ---------------------------------------------------------------- how an execution ends

  /** How the command lists of an iteration end; canary and rollback matter only when they are run. */
  datatype Outcomes = Outcomes(commands: Outcome, canary: Outcome, rollback: Outcome)

  /** The local variables of an iteration when commands, canary and rollback are done with. */
  function AttemptOf(q: QueueMeta, now: int, o: Outcomes): Attempt {
    AttemptRollback(AttemptCanary(AttemptCommands(q, now, o.commands), now, o.canary), now, o.rollback)
  }

  /** What an iteration that executes its commands finally writes. */
  function FinalWrite(p: Payload, policy: Policy, now: int, o: Outcomes): Update {
    Settle(p, AttemptOf(p.queue, now, o), policy, now)
  }

  predicate Succeeds(q: QueueMeta, o: Outcomes) {
    o.commands.Passed? && (q.canary.enabled && q.canary.checks != [] ==> o.canary.Passed?)
  }

  /** The canary failed: now, or before the run was replayed and was not run again since. */
  predicate CanaryFails(q: QueueMeta, o: Outcomes) {
    !Succeeds(q, o) && (o.commands.Passed? || q.canary.passed == Some(false))
  }

  predicate RollsBack(q: QueueMeta, o: Outcomes) {
    !Succeeds(q, o) && q.rollback.enabled && q.rollback.commands != [] && !q.rollback.attempted
  }

  /** What is stored of the canary: nothing new unless the commands passed. */
  predicate CanaryRecorded(q: QueueMeta, q': QueueMeta, now: int, o: Outcomes) {
    var c, c' := q.canary, q'.canary;
    if !(o.commands.Passed? && c.enabled) then c' == c
    else
      var passed := c.checks == [] || o.canary.Passed?;
      c' == c.(lastCheckedAt := Some(now), passed := Some(passed), error := c'.error) && (c'.error == None <==> passed)
  }

  /** What is stored of the rollback: nothing new unless it ran. */
  predicate RollbackRecorded(q: QueueMeta, q': QueueMeta, now: int, o: Outcomes) {
    var r, r' := q.rollback, q'.rollback;
    if !RollsBack(q, o) then r' == r
    else
      && r' == r.(attempted := true, succeeded := Some(o.rollback.Passed?), lastRunAt := Some(now), error := r'.error)
      && (r'.error == None <==> o.rollback.Passed?)
  }

  lemma AttemptIsExact(q: QueueMeta, now: int, o: Outcomes)
    requires MetaOk(Running, q)
    ensures var a := AttemptOf(q, now, o);
            var r := a.queue;
            && (a.ok <==> Succeeds(q, o)) && (a.error == None <==> a.ok)
            && (CanaryFails(q, o) <==> !a.ok && r.canary.enabled && r.canary.passed == Some(false))
            && r == q.(attempts := q.attempts + 1, lastAttemptAt := Some(now), canary := r.canary,
                       rollback := r.rollback)
            && (r.canary.passed.Some? ==> r.canary.enabled)
            && CanaryRecorded(q, r, now, o) && RollbackRecorded(q, r, now, o)
  {
  }

  /** The attempt is recorded, and nothing else about the run changes. */
  predicate AttemptRecorded(p: Payload, p': Payload, now: int, o: Outcomes) {
    var q, q' := p.queue, p'.queue;
    && p' == p.(queue := q')
    && q' == q.(attempts := q.attempts + 1, lastAttemptAt := Some(now), lastError := q'.lastError,
                canary := q'.canary, rollback := q'.rollback, nextAttemptAt := q'.nextAttemptAt,
                dlq := q'.dlq, dlqReason := q'.dlqReason)
    && (q'.lastError == None <==> Succeeds(q, o))
    && CanaryRecorded(q, q', now, o) && RollbackRecorded(q, q', now, o)
  }

  /** Where an execution leads that comes after so many attempts, from the stored metadata and the
      outcomes alone: success exactly when commands and canary pass, another attempt exactly when
      attempts are left, no canary failed and no rollback is or was due, and otherwise the dead
      letters, for the reason that is true. */
  predicate EndsBy(q: QueueMeta, attempts: int, policy: Policy, now: int, o: Outcomes, u: Update) {
    && (u.state == Succeeded || u.state == Queued || u.state == Failed)
    && (u.state == Succeeded <==> Succeeds(q, o))
    && (u.state == Queued <==> !Succeeds(q, o) && !CanaryFails(q, o) && !RollbackArmed(q)
                               && attempts + 1 < q.maxAttempts)
    && u.startedAt == (if u.state == Queued then Some(None) else None)
    && u.finishedAt == Some(if u.state == Queued then None else Some(now))
    && u.params.Some? && u.params.value.Readable?
    && (var q' := u.params.value.payload.queue;
        && q'.attempts == attempts + 1
        && CanaryRecorded(q, q', now, o) && RollbackRecorded(q, q', now, o)
        && q'.nextAttemptAt == (if u.state != Queued then None
             else Some(now + 1000 * RetryDelaySeconds(attempts + 1, policy.retryBackoffSeconds,
                                                      policy.retryBackoffMaxSeconds)))
        && (q'.dlq <==> u.state == Failed)
        && q'.dlqReason == (
             if u.state != Failed then None
             else if CanaryFails(q, o) then Some("canary_failed")
             else if !RollbackArmed(q) then Some("max_attempts_exceeded")
             else if (if q.rollback.attempted then q.rollback.succeeded == Some(true) else o.rollback.Passed?)
             then Some("auto_rolled_back")
             else Some("auto_rollback_failed")))
  }

  lemma ExecutionEndsExactly(p: Payload, policy: Policy, now: int, o: Outcomes)
    requires MetaOk(Running, p.queue)
    ensures var u := FinalWrite(p, policy, now, o);
            && EndsBy(p.queue, p.queue.attempts, policy, now, o, u)
            && AttemptRecorded(p, u.params.value.payload, now, o)
  {
    var a := AttemptOf(p.queue, now, o);
    AttemptIsExact(p.queue, now, o);
    DelayIsNotClamped(now, p.queue.attempts + 1, policy.retryBackoffSeconds, policy.retryBackoffMaxSeconds);
    SettlesBy(p, a, policy, now, o);
  }

  lemma DelayIsNotClamped(now: int, attempt: int, baseSeconds: int, capSeconds: int)
    ensures var delay := RetryDelaySeconds(attempt, baseSeconds, capSeconds);
            NextRetryAt(now, delay) == now + 1000 * delay
  {
    RetryDelayDoublesUpToCap(attempt, baseSeconds, capSeconds);
  }

  lemma SettlesBy(p: Payload, a: Attempt, policy: Policy, now: int, o: Outcomes)
    requires MetaOk(Running, p.queue) && (a.ok <==> Succeeds(p.queue, o)) && (a.error == None <==> a.ok)
    requires CanaryFails(p.queue, o) <==> !a.ok && a.queue.canary.enabled && a.queue.canary.passed == Some(false)
    requires a.queue == p.queue.(attempts := p.queue.attempts + 1, lastAttemptAt := Some(now),
                                 canary := a.queue.canary, rollback := a.queue.rollback)
    requires a.queue.canary.passed.Some? ==> a.queue.canary.enabled
    requires CanaryRecorded(p.queue, a.queue, now, o) && RollbackRecorded(p.queue, a.queue, now, o)
    requires var delay := RetryDelaySeconds(a.queue.attempts, policy.retryBackoffSeconds,
                                            policy.retryBackoffMaxSeconds);
             NextRetryAt(now, delay) == now + 1000 * delay
    ensures var u := Settle(p, a, policy, now);
            && EndsBy(p.queue, p.queue.attempts, policy, now, o, u)
            && AttemptRecorded(p, u.params.value.payload, now, o)
  {
  }

  /** A replay of a run whose canary failed gets no second attempt when its commands fail, however
      many attempts it has left: it is dead-lettered for the canary of its source. */
  lemma OldCanaryFailureForbidsRetries(source: Payload, id: nat, policy: Policy, now: int, o: Outcomes)
    requires MetaOk(Failed, source.queue) && source.queue.dlqReason == Some("canary_failed") && !o.commands.Passed?
    ensures var q := ReplayQueue(source.queue, id);
            && MetaOk(Queued, q) && MetaOk(Running, q)
            && (var u := FinalWrite(source.(queue := q), policy, now, o);
                && u.state == Failed
                && u.params.Some? && u.params.value.Readable?
                && u.params.value.payload.queue.dlqReason == Some("canary_failed"))
  {
    var q := ReplayQueue(source.queue, id);
    ExecutionEndsExactly(source.(queue := q), policy, now, o);
  }

  // ---------------------------------------------------------------- rollback

  /** Rollback commands run at most once along any chain of replays; a run they ran for has
      executed exactly once, is never queued again and never executes again; and a run with
      rollback commands at hand executes at most once. */
  lemma RollbackRunsOnce(workers: nat, steps: seq<Step>, id: nat)
    requires var s := Play(Init(workers), steps); id < |s.rows|
    ensures var s := Play(Init(workers), steps);
            && |s.parents| == |s.rows| && Ordered(s.parents)
            && LineageRollbacks(s.parents, s.log, id) <= 1
            && (Rollbacks(s.log, id) > 0 ==> Executions(s.log, id) == 1 && s.rows[id].state != Queued)
            && (s.rows[id].params.Readable? ==>
                  var q := s.rows[id].params.payload.queue;
                  RollbackArmed(q) ==> Executions(s.log, id) <= 1)
  {
    var s := Play(Init(workers), steps);
    ReachableInv(workers, steps);
    assert RunOk(s.parents, s.log, id, s.rows[id], Held(s.workers, id));
    RollbackNeedsExecution(s.parents, s.log, id);
    if Held(s.workers, id) {
      var w :| 0 <= w < |s.workers| && Holds(s.workers[w], id);
      assert WorkerOk(s.rows, s.parents, s.log, s.workers[w]);
    }
  }

  // ---------------------------------------------------------------- stored metadata

  /** The rows of the table and their stored metadata always agree. */
  lemma StatesAgreeWithMetadata(workers: nat, steps: seq<Step>, id: nat)
    requires var s := Play(Init(workers), steps); id < |s.rows| && s.rows[id].params.Readable?
    ensures var r := Play(Init(workers), steps).rows[id];
            var q := r.params.payload.queue;
            && (r.state == Failed <==> q.dlq)
            && (r.state == Failed ==> ReasonAgrees(q))
            && (r.state == Succeeded ==> q.attempts > 0 && (q.approval.required ==> q.approval.status == Approved))
            && (r.state == Succeeded && q.canary.enabled ==> q.canary.passed == Some(true))
            && (r.state == Succeeded || r.state == Failed ==> q.nextAttemptAt == None)
  {
    var s := Play(Init(workers), steps);
    ReachableInv(workers, steps);
    assert RunOk(s.parents, s.log, id, s.rows[id], Held(s.workers, id));
  }

  // ---------------------------------------------------------------- the execution budget

  /** The executions an active run has left. */
  function Remaining(s: System, id: nat): int
    requires id < |s.rows|
  {
    var r := s.rows[id];
    if Active(r) && r.params.Readable? then r.params.payload.queue.maxAttempts - Executions(s.log, id) else 0
  }

  function Budget(s: System, n: nat): int
    requires n <= |s.rows|
  {
    if n == 0 then 0 else Budget(s, n - 1) + Remaining(s, n - 1)
  }

  lemma {:induction false} BudgetPointwise(s: System, t: System, n: nat, id: nat)
    requires n <= |s.rows| <= |t.rows|
    requires forall i: nat | i < n :: Remaining(t, i) <= Remaining(s, i) - (if i == id then 1 else 0)
    ensures Budget(t, n) <= Budget(s, n) - (if id < n then 1 else 0)
  {
    if n > 0 { BudgetPointwise(s, t, n - 1, id); }
  }

  lemma RemainingNatural(s: System, id: nat)
    requires Inv(s) && id < |s.rows|
    ensures Remaining(s, id) >= 0
  {
    assert RunOk(s.parents, s.log, id, s.rows[id], Held(s.workers, id));
    if Held(s.workers, id) {
      var w :| 0 <= w < |s.workers| && Holds(s.workers[w], id);
      assert WorkerOk(s.rows, s.parents, s.log, s.workers[w]);
    }
  }

  lemma {:induction false} BudgetNatural(s: System, n: nat)
    requires Inv(s) && n <= |s.rows|
    ensures Budget(s, n) >= 0
  {
    if n > 0 {
      BudgetNatural(s, n - 1);
      RemainingNatural(s, n - 1);
    }
  }

  lemma RemainingFalls(s: System, step: Step, t: System, i: nat)
    requires Inv(s) && Inv(t) && i < |s.rows| <= |t.rows| && RowMoves(s, step, t, i)
    requires step.RunCommands? && Enabled(s, step) ==> t.rows == s.rows
    ensures Remaining(t, i) <= Remaining(s, i)
              - (if step.RunCommands? && Enabled(s, step) && s.workers[step.w].id == i then 1 else 0)
  {
    RemainingNatural(s, i);
    if step.RunCommands? && Enabled(s, step) {
      assert WorkerOk(s.rows, s.parents, s.log, s.workers[step.w]);
    }
  }

  /** No step but creating a run (new or replayed) raises the total of executions still possible,
      every execution lowers it, and it never goes below zero: retrying ends. */
  lemma BudgetFalls(workers: nat, steps: seq<Step>, step: Step)
    requires !step.Enqueue? && !step.Replay?
    ensures var s := Play(Init(workers), steps);
            var t := Apply(s, step);
            && |t.rows| == |s.rows|
            && 0 <= Budget(t, |t.rows|) <= Budget(s, |s.rows|)
            && (step.RunCommands? && Enabled(s, step) ==> Budget(t, |t.rows|) < Budget(s, |s.rows|))
  {
    var s := Play(Init(workers), steps);
    var t := Apply(s, step);
    ReachableInv(workers, steps);
    StepKeepsInv(s, step);
    BudgetNatural(t, |t.rows|);
    RowCount(s, step);
    var executing := step.RunCommands? && Enabled(s, step);
    if executing { assert WorkerOk(s.rows, s.parents, s.log, s.workers[step.w]); }
    var id := if executing then s.workers[step.w].id else |s.rows|;
    forall i: nat | i < |s.rows|
      ensures Remaining(t, i) <= Remaining(s, i) - (if i == id then 1 else 0)
    {
      StepMoves(s, step, i);
      RemainingFalls(s, step, t, i);
    }
    BudgetPointwise(s, t, |s.rows|, id);
  }

  // ---------------------------------------------------------------- one active run per target

  predicate UniqueActive(rows: seq<Run>) {
    forall i, j | 0 <= i < j < |rows| && rows[i].state in {Queued, Running} && rows[j].state in {Queued, Running} ::
      !(rows[i].hostId == rows[j].hostId && rows[i].actionId == rows[j].actionId)
  }

  /** Drains, operators and creates that look for active runs keep at most one active run per host and
      action; a create that looks for running ones only, or looked earlier, keeps it exactly when no
      run for the target is active. */
  lemma ActiveRunsStayUnique(workers: nat, steps: seq<Step>, step: Step)
    requires UniqueActive(Play(Init(workers), steps).rows) && Enabled(Play(Init(workers), steps), step)
    ensures var s := Play(Init(workers), steps);
            UniqueActive(Apply(s, step).rows) <==>
              (step.Enqueue? && step.test != NoneActive ==> !ActiveFor(s.rows, step.hostId, step.actionId))
  {
    ReachableInv(workers, steps);
    UniqueAfterStep(Play(Init(workers), steps), step);
  }

  lemma UniqueAfterStep(s: System, step: Step)
    requires Inv(s) && UniqueActive(s.rows) && Enabled(s, step)
    ensures UniqueActive(Apply(s, step).rows) <==>
              (step.Enqueue? && step.test != NoneActive ==> !ActiveFor(s.rows, step.hostId, step.actionId))
  {
    var t := Apply(s, step);
    if step.Enqueue? {
      var n := |s.rows|;
      if ActiveFor(s.rows, step.hostId, step.actionId) {
        var i :| 0 <= i < |s.rows| && Active(s.rows[i]) && SameTarget(s.rows[i], step.hostId, step.actionId);
        assert Active(t.rows[i]) && Active(t.rows[n]) && SameTarget(t.rows[i], t.rows[n].hostId, t.rows[n].actionId);
      }
    } else if !step.Replay? {
      RowCount(s, step);
      ActiveOnlyLeaves(s, step, t);
    }
  }

  lemma ActiveOnlyLeaves(s: System, step: Step, t: System)
    requires Inv(s) && t == Apply(s, step) && |t.rows| == |s.rows| && UniqueActive(s.rows)
    ensures UniqueActive(t.rows)
  {
    forall i: nat | i < |s.rows|
      ensures SameTarget(t.rows[i], s.rows[i].hostId, s.rows[i].actionId) && (Active(t.rows[i]) ==> Active(s.rows[i]))
    {
      StepMoves(s, step, i);
    }
  }

  // ---------------------------------------------------------------- replay

  predicate DeadLettered(r: Run) {
    r.state == Failed && r.params.Readable? && r.params.payload.queue.dlq
  }

  ghost function DeadLetterSet(rows: seq<Run>): set<nat> {
    set i: nat | i < |rows| && DeadLettered(rows[i])
  }

  ghost function QueuedSet(rows: seq<Run>): set<nat> {
    set i: nat | i < |rows| && rows[i].state == Queued
  }

  /** The run that a replay queues is the source's request once more: same target, commands, attempt
      limit, approval, canary and rollback with all that is recorded of them. Only its attempts start
      anew, so that it is due as soon as it needs no approval. */
  ghost predicate ReplaysRequest(source: Run, id: nat, r: Run, now: int) {
    && r.hostId == source.hostId && r.actionId == source.actionId
    && r.state == Queued && r.requestedAt == now && r.startedAt == None && r.finishedAt == None
    && r.params.Readable? && source.params.Readable?
    && (var p, p' := source.params.payload, r.params.payload;
        var q, q' := p.queue, p'.queue;
        && p'.actionId == p.actionId && p'.commands == p.commands && p'.sourceCodes == p.sourceCodes
        && p'.rollbackNotes == p.rollbackNotes && p'.profile == p.profile
        && q'.maxAttempts == q.maxAttempts && q'.approval == q.approval
        && q'.canary == q.canary && q'.rollback == q.rollback
        && q'.autoQueued == q.autoQueued && q'.autoReason == q.autoReason && q'.autoTier == q.autoTier
        && q'.attempts == 0 && q'.lastAttemptAt == None && q'.lastError == None
        && q'.nextAttemptAt == None && !q'.dlq && q'.dlqReason == None
        && q'.replayOfRunId.Some? && NumberOf(q'.replayOfRunId.value) == id)
    && (forall at :: Claimable(r, at) <==>
          var a := source.params.payload.queue.approval; a.required ==> a.status == Approved)
  }

  lemma ReplayIsTheRequest(source: Run, id: nat, now: int)
    requires source.params.Readable?
    ensures ReplaysRequest(source, id, ReplayOf(source, id, now), now)
  {
    DecimalStandsFor(id);
  }

  /** A dead-lettered source is marked as replayed and otherwise keeps what it says. */
  predicate MarkedReplayed(source: Run, r: Run, now: int) {
    && r.hostId == source.hostId && r.actionId == source.actionId && r.requestedAt == source.requestedAt
    && r.state == Canceled && r.startedAt == source.startedAt
    && r.finishedAt == Some(source.finishedAt.GetOr(now))
    && r.params.Readable? && source.params.Readable?
    && r.params.payload == source.params.payload.(queue := source.params.payload.queue.(
         dlq := false, dlqReason := Some("replayed")))
  }

  /** Replaying a dead-lettered run takes exactly that run out of the dead letters and queues
      exactly one new run for the same target; replaying any other run that is over changes no
      existing row. */
  lemma ReplayMovesOneRun(workers: nat, steps: seq<Step>, id: nat, now: int)
    requires Enabled(Play(Init(workers), steps), Replay(id, now))
    ensures var s := Play(Init(workers), steps);
            var t := Apply(s, Replay(id, now));
            var n := |s.rows|;
            && id < n && |t.rows| == n + 1
            && DeadLetterSet(t.rows) == DeadLetterSet(s.rows) - {id}
            && QueuedSet(t.rows) == QueuedSet(s.rows) + {n}
            && (forall i | 0 <= i < n && (i != id || s.rows[id].state != Failed) :: t.rows[i] == s.rows[i])
            && (s.rows[id].state == Failed ==> MarkedReplayed(s.rows[id], t.rows[id], now))
            && ReplaysRequest(s.rows[id], id, t.rows[n], now)
  {
    var s := Play(Init(workers), steps);
    StatesAgreeWithMetadata(workers, steps, id);
    ReplayIsTheRequest(s.rows[id], id, now);
    ReplayRows(s, id, now, Apply(s, Replay(id, now)));
  }

  lemma ReplayRows(s: System, id: nat, now: int, t: System)
    requires Enabled(s, Replay(id, now)) && t == Apply(s, Replay(id, now))
    requires var q := s.rows[id].params.payload.queue;
             (s.rows[id].state == Failed <==> q.dlq) && (q.dlq ==> q.nextAttemptAt == None)
    ensures var n := |s.rows|;
            && |t.rows| == n + 1 && t.rows[n] == ReplayOf(s.rows[id], id, now)
            && DeadLetterSet(t.rows) == DeadLetterSet(s.rows) - {id}
            && QueuedSet(t.rows) == QueuedSet(s.rows) + {n}
            && (forall i | 0 <= i < n && (i != id || s.rows[id].state != Failed) :: t.rows[i] == s.rows[i])
            && (s.rows[id].state == Failed ==> MarkedReplayed(s.rows[id], t.rows[id], now))
  {
    var n := |s.rows|;
    assert forall i | 0 <= i < n && i != id :: t.rows[i] == s.rows[i];
    assert DeadLettered(s.rows[id]) <==> s.rows[id].state == Failed;
  }

  /** An execution of a replay ends as the metadata stored with its source says, for any outcomes, but
      with the attempts starting at zero. */
  lemma ReplayRunsAsItsSource(workers: nat, steps: seq<Step>, id: nat, now: int, policy: Policy, at: int, o: Outcomes)
    requires Enabled(Play(Init(workers), steps), Replay(id, now))
    ensures var s := Play(Init(workers), steps);
            var t := Apply(s, Replay(id, now));
            var n := |s.rows|;
            && id < n < |t.rows| && s.rows[id].params.Readable? && t.rows[n].params.Readable?
            && EndsBy(s.rows[id].params.payload.queue, 0, policy, at, o,
                      FinalWrite(t.rows[n].params.payload, policy, at, o))
  {
    var s := Play(Init(workers), steps);
    var t := Apply(s, Replay(id, now));
    ReplayMovesOneRun(workers, steps, id, now);
    ReplayIsSound(workers, steps, id, now);
    EndsAsItsSource(s.rows[id], id, t.rows[|s.rows|], now, policy, at, o);
  }

  lemma ReplayIsSound(workers: nat, steps: seq<Step>, id: nat, now: int)
    requires Enabled(Play(Init(workers), steps), Replay(id, now))
    ensures var s := Play(Init(workers), steps);
            var t := Apply(s, Replay(id, now));
            && |s.rows| < |t.rows| && t.rows[|s.rows|].params.Readable?
            && MetaOk(Running, t.rows[|s.rows|].params.payload.queue)
  {
    var s := Play(Init(workers), steps);
    var t := Apply(s, Replay(id, now));
    ReachableInv(workers, steps);
    StepKeepsInv(s, Replay(id, now));
    assert RunOk(t.parents, t.log, |s.rows|, t.rows[|s.rows|], Held(t.workers, |s.rows|));
  }

  lemma EndsAsItsSource(source: Run, id: nat, r: Run, now: int, policy: Policy, at: int, o: Outcomes)
    requires ReplaysRequest(source, id, r, now) && MetaOk(Running, r.params.payload.queue)
    ensures EndsBy(source.params.payload.queue, 0, policy, at, o, FinalWrite(r.params.payload, policy, at, o))
  {
    ExecutionEndsExactly(r.params.payload, policy, at, o);
  }

  // ---------------------------------------------------------------- what lasts over a history

  /** What a row keeps whatever happens to it. */
  predicate Lasts(r: Run, r': Run) {
    && SameTarget(r', r.hostId, r.actionId) && r'.requestedAt == r.requestedAt
    && (Active(r') ==> Active(r))
    && (r.params.Readable? <==> r'.params.Readable?)
    && (r.params.Readable? ==> SameRequest(r.params.payload, r'.params.payload))
  }

  lemma {:induction false} HistoryExtends(s: System, more: seq<Step>, id: nat)
    requires Inv(s) && id < |s.rows|
    ensures var t := Play(s, more);
            Inv(t) && |s.rows| <= |t.rows| && s.parents <= t.parents && Lasts(s.rows[id], t.rows[id])
    decreases |more|
  {
    if more != [] {
      var earlier, step := more[..|more| - 1], more[|more| - 1];
      HistoryExtends(s, earlier, id);
      StepKeepsInv(Play(s, earlier), step);
      StepMoves(Play(s, earlier), step, id);
      ParentsGrow(Play(s, earlier), step);
    }
  }

  lemma ParentsGrow(s: System, step: Step)
    ensures s.parents <= Apply(s, step).parents
  {
  }
}
