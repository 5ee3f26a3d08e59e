/** The inductive invariant of the run table: what every step of every interleaving keeps. */
module DrainInvariant {
  import opened Common
  import opened QueueRuntime
  import opened DrainProtocol
  import Guard

  // ---------------------------------------------------------------- reading the history

  function Executions(log: History, id: nat): nat {
    match log
    case Start => 0
    case Then(past, e) => Executions(past, id) + (if e.Executed? && e.run == id then 1 else 0)
  }

  function Rollbacks(log: History, id: nat): nat {
    match log
    case Start => 0
    case Then(past, e) => Rollbacks(past, id) + (if e == RolledBack(id) then 1 else 0)
  }

  function Approvals(log: History, id: nat): nat {
    match log
    case Start => 0
    case Then(past, e) => Approvals(past, id) + (if e == ApprovalGranted(id) then 1 else 0)
  }

  function LastExecution(log: History, id: nat): (e: Option<Event>)
    ensures e.Some? ==> e.value.Executed? && e.value.run == id
  {
    match log
    case Start => None
    case Then(past, e) => if e.Executed? && e.run == id then Some(e) else LastExecution(past, id)
  }

  /** An operator approved the run after it last executed. */
  predicate ApprovedSince(log: History, id: nat) {
    match log
    case Start => false
    case Then(past, e) =>
      if e.Executed? && e.run == id then false
      else e == ApprovalGranted(id) || ApprovedSince(past, id)
  }

  predicate Ordered(parents: seq<Option<nat>>) {
    forall i | 0 <= i < |parents| && parents[i].Some? :: parents[i].value < i
  }

  /** Rollbacks of the run and of every run it was, directly or not, replayed from. */
  function LineageRollbacks(parents: seq<Option<nat>>, log: History, id: nat): nat
    requires id < |parents| && Ordered(parents)
  {
    Rollbacks(log, id) + if parents[id].Some? then LineageRollbacks(parents, log, parents[id].value) else 0
  }

  /** The run, or a run it was replayed from, has been approved. */
  predicate LineageApproved(parents: seq<Option<nat>>, log: History, id: nat)
    requires id < |parents| && Ordered(parents)
  {
    Approvals(log, id) > 0 || (parents[id].Some? && LineageApproved(parents, log, parents[id].value))
  }

  /** The instant before which the run may not execute again, going by its last execution alone. */
  function DueAfter(e: Event): int
    requires e.Executed?
  {
    e.at + 1000 * RetryDelaySeconds(e.number, e.baseSeconds, e.capSeconds)
  }

  /** Every execution in the log was allowed by what had been logged before it. */
  predicate LogSafe(parents: seq<Option<nat>>, log: History)
    requires Ordered(parents)
  {
    match log
    case Start => true
    case Then(past, e) =>
      && LogSafe(parents, past)
      && (e.Executed? ==>
            && e.run < |parents|
            && e.number == Executions(past, e.run) + 1
            && (e.needsApproval ==> LineageApproved(parents, past, e.run))
            && (var previous := LastExecution(past, e.run);
                previous.Some? && !ApprovedSince(past, e.run) ==> e.at >= DueAfter(previous.value))
            && Rollbacks(past, e.run) == 0)
      && (e.RolledBack? ==>
            && e.run < |parents|
            && Executions(past, e.run) == 1
            && LineageRollbacks(parents, past, e.run) == 0)
  }

  // ---------------------------------------------------------------- the invariant

  predicate ReasonAgrees(q: QueueMeta) {
    match q.dlqReason
    case None => false
    case Some(reason) =>
      && (reason == "policy_blocked" ==> q.attempts < q.maxAttempts)
      && (reason == "max_attempts_exceeded" ==> q.attempts == q.maxAttempts && !ForcesDeadLetter(q))
      && (reason == "canary_failed" ==> q.canary.enabled && q.canary.passed == Some(false))
      && (reason == "auto_rolled_back" ==> q.rollback.attempted && q.rollback.succeeded == Some(true))
      && (reason == "auto_rollback_failed" ==> q.rollback.attempted && q.rollback.succeeded != Some(true))
      && reason in {"policy_blocked", "max_attempts_exceeded", "canary_failed", "auto_rolled_back",
                    "auto_rollback_failed"}
  }

  /** Rollback commands will run if the next execution fails, or have already run. */
  predicate RollbackArmed(q: QueueMeta) {
    q.rollback.attempted || (q.rollback.enabled && q.rollback.commands != [])
  }

  /** What the stored metadata of a run says in each state. */
  predicate MetaOk(state: RunState, q: QueueMeta) {
    && 1 <= q.maxAttempts <= 20
    && 0 <= q.attempts <= q.maxAttempts
    && (q.approval.required <==> q.approval.status != NoApproval)
    && (q.canary.passed.Some? ==> q.canary.enabled)
    && (state == Failed <==> q.dlq)
    && (state == Failed ==> ReasonAgrees(q))
    && (state == Succeeded || state == Failed ==> q.nextAttemptAt == None)
    && (state == Succeeded && q.canary.enabled ==> q.canary.passed == Some(true))
    && (state == Succeeded ==> !AwaitsApproval(q) && q.attempts > 0)
    && (RollbackArmed(q) ==> q.attempts <= 1)
    && (state == Queued || state == Running ==> q.attempts < q.maxAttempts)
    && ((state == Queued || state == Running) && q.attempts > 0 ==>
          !AwaitsApproval(q) && !RollbackArmed(q) && !ForcesDeadLetter(q))
  }

  /** The history agrees with metadata that no iteration is currently changing. */
  predicate RecordOk(parents: seq<Option<nat>>, log: History, id: nat, q: QueueMeta)
    requires id < |parents| && Ordered(parents)
  {
    && Executions(log, id) == q.attempts
    && LineageRollbacks(parents, log, id) == (if q.rollback.attempted then 1 else 0)
    && (q.approval.status == Approved ==> LineageApproved(parents, log, id))
    && (q.attempts > 0 ==> LastExecution(log, id).Some?)
  }

  /** A run waiting for its next attempt waits for the delay its last one earned, and no run waits for
      anything else. */
  predicate SpacingOk(log: History, id: nat, q: QueueMeta) {
    var last := LastExecution(log, id);
    q.nextAttemptAt == if last.Some? && !ApprovedSince(log, id) then Some(DueAfter(last.value)) else None
  }

  /** The run a worker has claimed and not yet released. */
  function RunOf(k: Worker): Option<nat> {
    if k.Claimed? || k.Loaded? || k.Cleared? || k.Working? then Some(k.id) else None
  }

  predicate Holds(k: Worker, id: nat) { k.Working? && k.id == id }

  predicate Held(workers: seq<Worker>, id: nat) {
    exists w | 0 <= w < |workers| :: Holds(workers[w], id)
  }

  predicate RunOk(parents: seq<Option<nat>>, log: History, id: nat, r: Run, held: bool)
    requires id < |parents| && Ordered(parents)
  {
    match r.params
    case Unreadable => Executions(log, id) == 0
    case Readable(p) =>
      && MetaOk(r.state, p.queue)
      && (!held ==> RecordOk(parents, log, id, p.queue))
      && (!held && Active(r) ==> SpacingOk(log, id, p.queue))
  }

  /** What an iteration may have changed in its local copy of the metadata. */
  predicate LocalOk(before: QueueMeta, stage: Stage, a: Attempt) {
    var q := a.queue;
    && q == before.(attempts := before.attempts + 1, lastAttemptAt := q.lastAttemptAt, canary := q.canary,
                    rollback := q.rollback)
    && q.canary == before.canary.(lastCheckedAt := q.canary.lastCheckedAt, passed := q.canary.passed,
                                  error := q.canary.error)
    && q.rollback == before.rollback.(attempted := q.rollback.attempted, succeeded := q.rollback.succeeded,
                                      lastRunAt := q.rollback.lastRunAt, error := q.rollback.error)
    && (q.canary.passed.Some? ==> q.canary.enabled)
    && (stage != AfterRollback ==> q.rollback == before.rollback)
    && (before.rollback.attempted ==> q.rollback.attempted)
    && (q.rollback.attempted ==> RollbackArmed(before))
    && (stage != AfterCommands && a.ok && q.canary.enabled ==> q.canary.passed == Some(true))
    && (stage == AfterRollback && !a.ok && RollbackArmed(q) ==> q.rollback.attempted)
  }

  predicate WorkerOk(rows: seq<Run>, parents: seq<Option<nat>>, log: History, k: Worker)
    requires |parents| == |rows| && Ordered(parents)
  {
    match k
    case Idle => true
    case Picked(id) => id < |rows|
    case Claimed(id) => id < |rows| && rows[id].state == Running
    case Loaded(id, c) => id < |rows| && rows[id].state == Running && c.run == rows[id]
    case Cleared(id, c, now, ttlNow) =>
      && id < |rows| && rows[id].state == Running && c.run == rows[id]
      && Admit(c, now, ttlNow) == Proceed
    case Working(id, c, now, stage, a) =>
      && id < |rows| && rows[id].state == Running && c.run == rows[id]
      && c.run.params.Readable?
      && LocalOk(c.run.params.payload.queue, stage, a)
      && !AwaitsApproval(a.queue)
      && RecordOk(parents, log, id, a.queue)
      && !ApprovedSince(log, id)
      && LastExecution(log, id) == Some(Executed(id, now, a.queue.attempts, c.policy.retryBackoffSeconds,
                                                 c.policy.retryBackoffMaxSeconds, a.queue.approval.required))
  }

  /** A replay points at a run that is over, and its metadata names that run. */
  predicate ParentsOk(rows: seq<Run>, parents: seq<Option<nat>>) {
    && |parents| == |rows| && Ordered(parents)
    && forall i | 0 <= i < |parents| ::
         && (parents[i].Some? ==> !Active(rows[parents[i].value]) && rows[i].params.Readable?)
         && (rows[i].params.Readable? ==>
               rows[i].params.payload.queue.replayOfRunId
                 == (if parents[i].Some? then Some(Decimal(parents[i].value)) else None))
  }

  ghost predicate SingleOwner(workers: seq<Worker>) {
    forall v, w | 0 <= v < w < |workers| && RunOf(workers[v]).Some? :: RunOf(workers[w]) != RunOf(workers[v])
  }

  predicate Owned(workers: seq<Worker>, id: nat) {
    exists w | 0 <= w < |workers| :: RunOf(workers[w]) == Some(id)
  }

  ghost predicate Inv(s: System) {
    && ParentsOk(s.rows, s.parents)
    && SingleOwner(s.workers)
    && (forall id: nat | id < |s.rows| && s.rows[id].state == Running :: Owned(s.workers, id))
    && (forall id: nat | id < |s.rows| ::
          RunOk(s.parents, s.log, id, s.rows[id], Held(s.workers, id)))
    && (forall w | 0 <= w < |s.workers| :: WorkerOk(s.rows, s.parents, s.log, s.workers[w]))
    && (forall id: nat | id >= |s.rows| :: Fresh(s.log, id))
    && LogSafe(s.parents, s.log)
  }

  /** Nothing has been logged about this id yet. */
  predicate Fresh(log: History, id: nat) {
    match log
    case Start => true
    case Then(past, e) => e.run != id && Fresh(past, id)
  }
}
