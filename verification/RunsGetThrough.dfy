/** That work gets done (src/lib/remediate/queue.ts): at which instants a queued run may start, when the
    claim goes for it, and what a turn of the drain loop makes of it. */
module RunsGetThrough {
  import opened Common
  import opened QueueRuntime
  import opened DrainProtocol
  import opened DrainInvariant
  import opened DrainSafety
  import opened DrainTheorems
  import opened QueueOrder
  import opened RemediationQueue
  import Guard

  // ---------------------------------------------------------------- when a run may start

  /** A run waits for nothing but a missing approval and, unless an operator approved it since, the delay
      that its last execution earned. */
  predicate FreeToStart(log: History, id: nat, r: Run, at: int) {
    r.params.Readable? ==>
      var approval := r.params.payload.queue.approval;
      var last := LastExecution(log, id);
      && (approval.required ==> approval.status == Approved)
      && (last.Some? && !ApprovedSince(log, id) ==>
            at >= last.value.at
                  + 1000 * RetryDelaySeconds(last.value.number, last.value.baseSeconds, last.value.capSeconds))
  }

  lemma FreeExactly(s: System, id: nat, at: int)
    requires Inv(s) && id < |s.rows| && s.rows[id].state == Queued
    ensures Claimable(s.rows[id], at) <==> FreeToStart(s.log, id, s.rows[id], at)
    ensures MayStart(s.rows[id], at) <==> FreeToStart(s.log, id, s.rows[id], at)
  {
    NotRunningNotOwned(s, id);
    assert RunOk(s.parents, s.log, id, s.rows[id], false);
  }

  /** In every reachable state, a queued run may be claimed at exactly the instants that the history
      allows: at once when it has not executed, and otherwise as soon as its delay is over. */
  lemma ClaimableExactlyWhen(workers: nat, steps: seq<Step>, id: nat, at: int)
    requires var s := Play(Init(workers), steps); id < |s.rows| && s.rows[id].state == Queued
    ensures var s := Play(Init(workers), steps);
            && (Claimable(s.rows[id], at) <==> FreeToStart(s.log, id, s.rows[id], at))
            && (MayStart(s.rows[id], at) <==> FreeToStart(s.log, id, s.rows[id], at))
  {
    ReachableInv(workers, steps);
    FreeExactly(Play(Init(workers), steps), id, at);
  }

  /** The claim goes for a queued run at exactly those instants, provided that it is among the 80 oldest
      queued ones and none of those in front of it may start. */
  lemma DueRunIsPickedExactlyWhen(workers: nat, steps: seq<Step>, id: nat, at: int)
    requires var s := Play(Init(workers), steps); id < |s.rows| && s.rows[id].state == Queued
    ensures var s := Play(Init(workers), steps);
            Pick(s.rows, at) == Some(id) <==>
              && FreeToStart(s.log, id, s.rows[id], at) && |InFront(s.rows, id)| < 80
              && forall j | j in InFront(s.rows, id) :: !FreeToStart(s.log, j, s.rows[j], at)
  {
    var s := Play(Init(workers), steps);
    ClaimableExactlyWhen(workers, steps, id, at);
    PickedExactlyWhen(s.rows, at, id);
    forall j | j in InFront(s.rows, id)
      ensures MayStart(s.rows[j], at) <==> FreeToStart(s.log, j, s.rows[j], at)
    {
      ClaimableExactlyWhen(workers, steps, j, at);
    }
  }

  /** When a failed execution is tried again that came after so many attempts. */
  function RetryDue(attempts: int, policy: Policy, now: int): int {
    now + 1000 * RetryDelaySeconds(attempts + 1, policy.retryBackoffSeconds, policy.retryBackoffMaxSeconds)
  }

  /** The row waits for its next attempt, and for nothing else, until the instant. */
  predicate WaitsUntil(r: Run, due: int) {
    && r.params.Readable?
    && (var q := r.params.payload.queue;
        !q.dlq && (q.approval.required ==> q.approval.status == Approved) && q.nextAttemptAt == Some(due))
  }

  lemma PickOfWaiting(rows: seq<Run>, id: nat, r: Run, at: int, due: int)
    requires id < |rows| && rows[id] == r && r.state == Queued && WaitsUntil(r, due)
    ensures Claimable(rows[id], at) <==> at >= due
    ensures Pick(rows, at) == Some(id) <==>
              && at >= due && |InFront(rows, id)| < 80
              && forall j | j in InFront(rows, id) :: !MayStart(rows[j], at)
  {
    PickedExactlyWhen(rows, at, id);
  }

  lemma SettledRetry(r: Run, before: QueueMeta, p: Payload, a: Attempt, policy: Policy, now: int)
    requires LocalOk(before, AfterRollback, a) && !AwaitsApproval(a.queue)
    requires Settle(p, a, policy, now).state == Queued
    ensures WaitsUntil(ApplyUpdate(r, Settle(p, a, policy, now)),
                       RetryDue(before.attempts, policy, now))
  {
    DelayIsNotClamped(now, before.attempts + 1, policy.retryBackoffSeconds, policy.retryBackoffMaxSeconds);
  }

  lemma WorkersCopy(s: System, w: nat)
    requires Inv(s) && Enabled(s, SettleRun(w))
    ensures var k := s.workers[w];
            && k.claim.run == s.rows[k.id] && k.claim.run.params.Readable? && !AwaitsApproval(k.attempt.queue)
            && LocalOk(k.claim.run.params.payload.queue, AfterRollback, k.attempt)
  {
    assert WorkerOk(s.rows, s.parents, s.log, s.workers[w]);
  }

  lemma SettledRow(s: System, w: nat, u: Update)
    requires Enabled(s, SettleRun(w))
    requires var k := s.workers[w]; u == Settle(k.claim.run.params.payload, k.attempt, k.claim.policy, k.now)
    ensures Apply(s, SettleRun(w)).rows[s.workers[w].id] == ApplyUpdate(s.rows[s.workers[w].id], u)
  {
  }

  lemma RetryIsDue(s: System, w: nat, r: Run)
    requires Inv(s) && Enabled(s, SettleRun(w)) && r.state == Queued
    requires var k := s.workers[w];
             r == ApplyUpdate(s.rows[k.id], Settle(k.claim.run.params.payload, k.attempt, k.claim.policy, k.now))
    ensures var k := s.workers[w];
            && s.rows[k.id].params.Readable?
            && WaitsUntil(r, RetryDue(s.rows[k.id].params.payload.queue.attempts, k.claim.policy, k.now))
  {
    var k := s.workers[w];
    WorkersCopy(s, w);
    var p := k.claim.run.params.payload;
    SettledRetry(s.rows[k.id], p.queue, p, k.attempt, k.claim.policy, k.now);
  }

  /** From any state of the invariant: a run whose failed execution is retried may be claimed from the end
      of its delay on and not before, and as long as nobody disturbs it, the claim goes for it then. */
  lemma RetryIsPickedExactlyWhen(s: System, w: nat, more: seq<Step>, at: int)
    requires Inv(s) && Enabled(s, SettleRun(w))
    requires var t, id := Apply(s, SettleRun(w)), s.workers[w].id;
             t.rows[id].state == Queued && id < |Play(t, more).rows| && Play(t, more).rows[id] == t.rows[id]
    ensures var k, u := s.workers[w], Play(Apply(s, SettleRun(w)), more);
            && s.rows[k.id].params.Readable?
            && (var due := RetryDue(s.rows[k.id].params.payload.queue.attempts, k.claim.policy, k.now);
                && (Claimable(u.rows[k.id], at) <==> at >= due)
                && (Pick(u.rows, at) == Some(k.id) <==>
                      && at >= due && |InFront(u.rows, k.id)| < 80
                      && forall j | j in InFront(u.rows, k.id) :: !MayStart(u.rows[j], at)))
  {
    var k := s.workers[w];
    var r := Apply(s, SettleRun(w)).rows[k.id];
    SettledRow(s, w, Settle(k.claim.run.params.payload, k.attempt, k.claim.policy, k.now));
    RetryIsDue(s, w, r);
    PickOfWaiting(Play(Apply(s, SettleRun(w)), more).rows, k.id, r, at,
                  RetryDue(s.rows[k.id].params.payload.queue.attempts, k.claim.policy, k.now));
  }

  // ---------------------------------------------------------------- a turn of the drain loop

  lemma OneStepExecutesNothing(s: System, step: Step, w: nat, id: nat)
    requires Inv(s) && w < |s.workers| && RunOf(s.workers[w]) == Some(id)
    requires !(IsWorkerStep(step) && step.w == w)
    ensures Executions(Apply(s, step).log, id) == Executions(s.log, id)
  {
    assert WorkerOk(s.rows, s.parents, s.log, s.workers[w]);
    NotHeldByOthers(s, w, id);
    StepMoves(s, step, id);
  }

  /** While a worker owns a run, nobody else executes it. */
  lemma {:induction false} OthersExecuteNothing(s: System, steps: seq<Step>, w: nat, id: nat)
    requires Inv(s) && w < |s.workers| && OthersOnly(steps, w) && RunOf(s.workers[w]) == Some(id)
    ensures Executions(Play(s, steps).log, id) == Executions(s.log, id)
    decreases |steps|
  {
    if steps != [] {
      var before := steps[..|steps| - 1];
      OthersSpareOwner(s, before, w);
      OthersExecuteNothing(s, before, w, id);
      OneStepExecutesNothing(Play(s, before), steps[|steps| - 1], w, id);
    }
  }

  /** The worker is in this phase of its work on the run, whose row is r, and which has executed so many
      times. */
  ghost predicate At(s: System, w: nat, phase: Worker, id: nat, r: Run, executions: nat) {
    && Inv(s) && w < |s.workers| && s.workers[w] == phase
    && id < |s.rows| && s.rows[id] == r && Executions(s.log, id) == executions
  }

  lemma GapLeavesAt(s: System, gap: seq<Step>, w: nat, phase: Worker, id: nat, r: Run, executions: nat)
    requires At(s, w, phase, id, r, executions) && RunOf(phase) == Some(id) && OthersOnly(gap, w)
    ensures At(Play(s, gap), w, phase, id, r, executions)
  {
    OthersSpareOwner(s, gap, w);
    OthersExecuteNothing(s, gap, w, id);
  }

  lemma UnracedClaim(s: System, w: nat, id: nat, now: int)
    requires Inv(s) && w < |s.workers| && s.workers[w] == Idle && id < |s.rows| && Claimable(s.rows[id], now)
    ensures var r := s.rows[id].(state := Running, startedAt := Some(now));
            At(Play(s, RaceTrace(w, id, now, [])), w, Claimed(id), id, r, Executions(s.log, id))
  {
    var scan, claim := Scan(w, id, now), TakeClaim(w, now);
    PlayOne(s, [], scan);
    PlayOne(s, [scan], claim);
    assert [] + [scan] == [scan] && RaceTrace(w, id, now, []) == [scan] + [claim];
    StepKeepsInv(s, scan);
    StepKeepsInv(Apply(s, scan), claim);
  }

  lemma RereadAt(s: System, w: nat, id: nat, r: Run, n: nat, hostEnabled: bool, policy: Policy)
    requires At(s, w, Claimed(id), id, r, n)
    ensures At(Apply(s, Reread(w, hostEnabled, policy)), w, Loaded(id, Claim(r, hostEnabled, policy)), id, r, n)
  {
    StepKeepsInv(s, Reread(w, hostEnabled, policy));
  }

  /** What the row is after the checks. */
  function Checked(r: Run, c: Claim, now: int, ttlNow: int): Run {
    match Admit(c, now, ttlNow)
    case Release(u) => ApplyUpdate(r, u)
    case Proceed => r
  }

  function CheckedPhase(id: nat, c: Claim, now: int, ttlNow: int): Worker {
    if Admit(c, now, ttlNow).Proceed? then Cleared(id, c, now, ttlNow) else Idle
  }

  lemma CheckAt(s: System, w: nat, id: nat, r: Run, n: nat, c: Claim, now: int, ttlNow: int)
    requires At(s, w, Loaded(id, c), id, r, n)
    ensures At(Apply(s, CheckClaim(w, now, ttlNow)), w, CheckedPhase(id, c, now, ttlNow), id,
               Checked(r, c, now, ttlNow), n)
  {
    StepKeepsInv(s, CheckClaim(w, now, ttlNow));
  }

  lemma CheckTraceAt(s: System, w: nat, t: Turn, id: nat, r: Run, n: nat)
    requires At(s, w, Claimed(id), id, r, n) && TurnFor(t, w)
    ensures var c := Claim(r, t.hostEnabled, t.policy);
            At(Play(s, CheckTrace(w, t)), w, CheckedPhase(id, c, t.now, t.ttlNow), id,
               Checked(r, c, t.now, t.ttlNow), n)
  {
    var c := Claim(r, t.hostEnabled, t.policy);
    var reread, check := Reread(w, t.hostEnabled, t.policy), CheckClaim(w, t.now, t.ttlNow);
    GapLeavesAt(s, t.afterClaim, w, Claimed(id), id, r, n);
    RereadAt(Play(s, t.afterClaim), w, id, r, n, t.hostEnabled, t.policy);
    PlayOne(s, t.afterClaim, reread);
    GapLeavesAt(Play(s, t.afterClaim + [reread]), t.afterRead, w, Loaded(id, c), id, r, n);
    PlayConcat(s, t.afterClaim + [reread], t.afterRead);
    CheckAt(Play(s, t.afterClaim + [reread] + t.afterRead), w, id, r, n, c, t.now, t.ttlNow);
    PlayOne(s, t.afterClaim + [reread] + t.afterRead, check);
  }

  lemma RunAt(s: System, w: nat, id: nat, r: Run, n: nat, c: Claim, now: int, ttlNow: int, o: Outcome)
    requires At(s, w, Cleared(id, c, now, ttlNow), id, r, n) && c.run.params.Readable?
    ensures var a := AttemptCommands(c.run.params.payload.queue, now, o);
            At(Apply(s, RunCommands(w, o)), w, Working(id, c, now, AfterCommands, a), id, r, n + 1)
  {
    StepKeepsInv(s, RunCommands(w, o));
  }

  lemma CanaryAt(s: System, w: nat, id: nat, r: Run, n: nat, c: Claim, now: int, a: Attempt, o: Outcome)
    requires At(s, w, Working(id, c, now, AfterCommands, a), id, r, n)
    ensures At(Apply(s, RunCanary(w, o)), w, Working(id, c, now, AfterCanary, AttemptCanary(a, now, o)), id, r, n)
  {
    StepKeepsInv(s, RunCanary(w, o));
  }

  lemma RollbackAt(s: System, w: nat, id: nat, r: Run, n: nat, c: Claim, now: int, a: Attempt, o: Outcome)
    requires At(s, w, Working(id, c, now, AfterCanary, a), id, r, n)
    ensures At(Apply(s, RunRollback(w, o)), w, Working(id, c, now, AfterRollback, AttemptRollback(a, now, o)), id, r, n)
  {
    StepKeepsInv(s, RunRollback(w, o));
  }

  lemma SettleAt(s: System, w: nat, id: nat, r: Run, n: nat, c: Claim, now: int, a: Attempt)
    requires At(s, w, Working(id, c, now, AfterRollback, a), id, r, n) && c.run.params.Readable?
    ensures At(Apply(s, SettleRun(w)), w, Idle, id,
               ApplyUpdate(r, Settle(c.run.params.payload, a, c.policy, now)), n)
  {
    StepKeepsInv(s, SettleRun(w));
  }

  lemma ExecuteTraceAt(s: System, w: nat, t: Turn, id: nat, r: Run, n: nat, c: Claim, now: int, ttlNow: int)
    requires At(s, w, Cleared(id, c, now, ttlNow), id, r, n) && c.run.params.Readable? && TurnFor(t, w)
    ensures At(Play(s, ExecuteTrace(w, t)), w, Idle, id,
               ApplyUpdate(r, FinalWrite(c.run.params.payload, c.policy, now,
                                         Outcomes(t.commands, t.canary, t.rollback))), n + 1)
  {
    var q := c.run.params.payload.queue;
    var run, canary, rollback := RunCommands(w, t.commands), RunCanary(w, t.canary), RunRollback(w, t.rollback);
    var a1 := AttemptCommands(q, now, t.commands);
    var a2 := AttemptCanary(a1, now, t.canary);
    var a3 := AttemptRollback(a2, now, t.rollback);
    var trace := t.afterChecks;
    GapLeavesAt(s, trace, w, Cleared(id, c, now, ttlNow), id, r, n);
    RunAt(Play(s, trace), w, id, r, n, c, now, ttlNow, t.commands);
    PlayOne(s, trace, run);
    GapThen(s, trace + [run], t.duringCommands, w, Working(id, c, now, AfterCommands, a1), id, r, n + 1);
    trace := trace + [run] + t.duringCommands;
    CanaryAt(Play(s, trace), w, id, r, n + 1, c, now, a1, t.canary);
    PlayOne(s, trace, canary);
    GapThen(s, trace + [canary], t.duringCanary, w, Working(id, c, now, AfterCanary, a2), id, r, n + 1);
    trace := trace + [canary] + t.duringCanary;
    RollbackAt(Play(s, trace), w, id, r, n + 1, c, now, a2, t.rollback);
    PlayOne(s, trace, rollback);
    GapThen(s, trace + [rollback], t.duringRollback, w, Working(id, c, now, AfterRollback, a3), id, r, n + 1);
    trace := trace + [rollback] + t.duringRollback;
    SettleAt(Play(s, trace), w, id, r, n + 1, c, now, a3);
    PlayOne(s, trace, SettleRun(w));
  }

  lemma GapThen(s: System, trace: seq<Step>, gap: seq<Step>, w: nat, phase: Worker, id: nat, r: Run, n: nat)
    requires At(Play(s, trace), w, phase, id, r, n) && RunOf(phase) == Some(id) && OthersOnly(gap, w)
    ensures At(Play(s, trace + gap), w, phase, id, r, n)
  {
    GapLeavesAt(Play(s, trace), gap, w, phase, id, r, n);
    PlayConcat(s, trace, gap);
  }

  /** What becomes of the row of a claimed run, whatever others do to the rest of the table: the checks
      release it, or it is executed once and ends as its outcomes say. */
  function ClaimedRow(r: Run, t: Turn): Run {
    match Admit(Claim(r, t.hostEnabled, t.policy), t.now, t.ttlNow)
    case Release(u) => ApplyUpdate(r, u)
    case Proceed =>
      if r.params.Unreadable? then r
      else ApplyUpdate(r, FinalWrite(r.params.payload, t.policy, t.now, Outcomes(t.commands, t.canary, t.rollback)))
  }

  /** What the checks ask of a run that was picked; it is due when the clock has not gone back since. */
  predicate GetsThrough(r: Run, t: Turn) {
    && t.hostEnabled && 0 <= t.ttlNow - r.requestedAt <= 60_000 * t.policy.queueTtlMinutes
    && r.params.Readable? && Guard.Accepted(r.params.payload.commands, t.policy.guard)
    && (t.claimNow <= t.now || MayStart(r, t.now))
  }

  /** A turn whose first pick is not raced for, from any reachable state: nothing happens when nothing
      can be picked; otherwise the picked run is executed, exactly once, if and only if its host is
      enabled, its time to live is not over, it can be read, and the guard accepts its commands. */
  lemma DrainTurnIsExact(s: System, w: nat, t: Turn)
    requires Inv(s) && w < |s.workers| && s.workers[w] == Idle && TurnFor(t, w) && t.races[0] == []
    ensures var after := AfterTurn(s, w, t);
            && Taken(s, w, t) == Pick(s.rows, t.claimNow)
            && match Pick(s.rows, t.claimNow)
               case None => after == s
               case Some(id) =>
                 && id < |s.rows| && id < |after.rows|
                 && after.rows[id] == ClaimedRow(s.rows[id].(state := Running, startedAt := Some(t.claimNow)), t)
                 && w < |after.workers| && after.workers[w] == Idle
                 && Executions(after.log, id) == Executions(s.log, id) + (if GetsThrough(s.rows[id], t) then 1 else 0)
  {
    PickIsClaimable(s.rows, t.claimNow);
    if Pick(s.rows, t.claimNow).Some? {
      var id := Pick(s.rows, t.claimNow).value;
      var r := s.rows[id].(state := Running, startedAt := Some(t.claimNow));
      UnracedClaim(s, w, id, t.claimNow);
      ClaimedTurn(Play(s, RaceTrace(w, id, t.claimNow, [])), w, t, id, r, Executions(s.log, id));
      PickedGetsThrough(s.rows[id], t);
    }
  }

  lemma PickedGetsThrough(r: Run, t: Turn)
    requires MayStart(r, t.claimNow)
    ensures var claimed := r.(state := Running, startedAt := Some(t.claimNow));
            Admit(Claim(claimed, t.hostEnabled, t.policy), t.now, t.ttlNow).Proceed? <==> GetsThrough(r, t)
  {
    var claimed := r.(state := Running, startedAt := Some(t.claimNow));
    AdmissionIsExact(Claim(claimed, t.hostEnabled, t.policy), t.now, t.ttlNow);
  }

  lemma ClaimedTurn(s: System, w: nat, t: Turn, id: nat, r: Run, n: nat)
    requires At(s, w, Claimed(id), id, r, n) && TurnFor(t, w)
    ensures var checked := Play(s, CheckTrace(w, t));
            var admitted := Admit(Claim(r, t.hostEnabled, t.policy), t.now, t.ttlNow).Proceed?;
            && (IsCleared(checked, w) <==> admitted)
            && At(if admitted then Play(checked, ExecuteTrace(w, t)) else checked, w, Idle, id, ClaimedRow(r, t),
                  n + if admitted then 1 else 0)
  {
    var c := Claim(r, t.hostEnabled, t.policy);
    CheckTraceAt(s, w, t, id, r, n);
    if Admit(c, t.now, t.ttlNow).Proceed? {
      ExecuteTraceAt(Play(s, CheckTrace(w, t)), w, t, id, r, n, c, t.now, t.ttlNow);
    }
  }
}
