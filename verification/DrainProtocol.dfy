/** The remediation run table and everything that changes it (src/lib/remediate/queue.ts), as a
    state machine. Any number of drain workers interleave; each drain iteration is cut into the
    database accesses and command executions it is made of. Creating, approving, rejecting and
    replaying are single steps; LateWrites tells what becomes of them when they are not. The clock,
    the host flags, the resolved policy and the outcome of every command list arrive with the step.
    A run id is its creation index. */
module DrainProtocol {
  import opened Common
  import opened QueueRuntime
  import Guard

  datatype RunState = Queued | Running | Succeeded | Failed | Canceled

  /** paramsJson: text the payload parser rejects, or the payload it yields. */
  datatype Stored = Unreadable | Readable(payload: Payload)

  datatype Run = Run(
    hostId: string,
    actionId: string,
    state: RunState,
    requestedAt: int,
    startedAt: Option<int>,
    finishedAt: Option<int>,
    params: Stored)

  /** A column update; None leaves the column as it is, as an undefined field does in Prisma. */
  datatype Update = Update(
    state: RunState,
    startedAt: Option<Option<int>>,
    finishedAt: Option<Option<int>>,
    params: Option<Stored>)

  /** The part of the resolved host policy that a drain iteration reads; the attempt limit only to
      report about runs that cannot be read. */
  datatype Policy = Policy(
    queueTtlMinutes: int,
    maxRetryAttempts: int,
    retryBackoffSeconds: int,
    retryBackoffMaxSeconds: int,
    guard: Guard.GuardPolicy)

  /** What a worker knows after it has re-read the run it claimed. */
  datatype Claim = Claim(run: Run, hostEnabled: bool, policy: Policy)

  /** How a command list ended: all succeeded, one failed, or the runner itself threw. */
  datatype Outcome = Passed | CommandFailed | Threw(message: string)

  /** The local variables of an iteration once its commands have run. */
  datatype Attempt = Attempt(queue: QueueMeta, ok: bool, error: Option<string>)

  datatype Stage = AfterCommands | AfterCanary | AfterRollback

  datatype Worker =
    | Idle
    | Picked(id: nat)
    | Claimed(id: nat)
    | Loaded(id: nat, claim: Claim)
    | Cleared(id: nat, claim: Claim, now: int, ttlNow: int)
    | Working(id: nat, claim: Claim, now: int, stage: Stage, attempt: Attempt)

  datatype Event =
    | Executed(run: nat, at: int, number: int, baseSeconds: int, capSeconds: int, needsApproval: bool)
    | RolledBack(run: nat)
    | ApprovalGranted(run: nat)

  /** The events so far, oldest innermost. */
  datatype History = Start | Then(past: History, last: Event)

  /** rows, workers, and the history: parents[i] is the run that run i replays. */
  datatype System = System(
    rows: seq<Run>,
    workers: seq<Worker>,
    parents: seq<Option<nat>>,
    log: History)

  predicate Active(r: Run) { r.state == Queued || r.state == Running }

  function ApplyUpdate(r: Run, u: Update): Run {
    Run(r.hostId, r.actionId, u.state, r.requestedAt,
        if u.startedAt.Some? then u.startedAt.value else r.startedAt,
        if u.finishedAt.Some? then u.finishedAt.value else r.finishedAt,
        if u.params.Some? then u.params.value else r.params)
  }

  // ---------------------------------------------------------------- one drain iteration

  /** isWithinMinutes */
  predicate WithinMinutes(ts: int, minutes: int, now: int) {
    0 <= now - ts <= minutes * 60_000
  }

  function JoinIssues(issues: seq<Guard.Issue>): string {
    if issues == [] then ""
    else
      var item := "#" + IntText(issues[0].index) + ":" + Guard.ReasonText(issues[0].reason);
      if |issues| == 1 then item else item + "; " + JoinIssues(issues[1..])
  }

  function BlockedMessage(issues: seq<Guard.Issue>): string {
    Truncate("Execution blocked by policy at dequeue time: " + JoinIssues(issues[..Min(8, |issues|)]), 600)
  }

  /** finishRun */
  function Finish(state: RunState, now: int, params: Option<Stored>): Update {
    Update(state, None, Some(Some(now)), params)
  }

  /** updateRun as the drain loop calls it to put a run back */
  function Requeue(p: Payload): Update {
    Update(Queued, Some(None), Some(None), Some(Readable(p)))
  }

  function BlockedByPolicy(q: QueueMeta, issues: seq<Guard.Issue>, now: int): QueueMeta {
    q.(dlq := true, dlqReason := Some("policy_blocked"), lastError := Some(BlockedMessage(issues)),
       lastAttemptAt := Some(now), nextAttemptAt := None)
  }

  datatype Admission = Release(update: Update) | Proceed

  /** Every check between the re-read of a claimed run and the execution of its commands. */
  function Admit(c: Claim, now: int, ttlNow: int): Admission {
    var kept := if c.run.params.Readable? then Some(c.run.params) else None;
    if !c.hostEnabled then Release(Finish(Canceled, now, kept))
    else if !WithinMinutes(c.run.requestedAt, c.policy.queueTtlMinutes, ttlNow) then
      Release(Finish(Canceled, now, kept))
    else match c.run.params
      case Unreadable => Release(Finish(Failed, now, None))
      case Readable(p) =>
        if !Ready(p.queue, now) then Release(Requeue(p))
        else
          var issues := Guard.Issues(p.commands, c.policy.guard);
          if issues != [] then
            Release(Finish(Failed, now, Some(Readable(p.(queue := BlockedByPolicy(p.queue, issues, now))))))
          else Proceed
  }

  function RunError(o: Outcome): Option<string> {
    match o
    case Passed => None
    case CommandFailed => Some("One or more remediation commands failed.")
    case Threw(message) => Some(Truncate(message, 600))
  }

  function AttemptCommands(q: QueueMeta, now: int, o: Outcome): Attempt {
    Attempt(q.(attempts := q.attempts + 1, lastAttemptAt := Some(now)), o.Passed?, RunError(o))
  }

  function CanaryError(o: Outcome): Option<string> {
    match o
    case Passed => None
    case CommandFailed => Some("Canary validation failed.")
    case Threw(message) => Some(Truncate(message, 600))
  }

  /** executeCanaryChecks passes without running anything when there are no checks. */
  function AttemptCanary(a: Attempt, now: int, o: Outcome): Attempt {
    if !(a.ok && a.queue.canary.enabled) then a
    else
      var result := if a.queue.canary.checks == [] then Passed else o;
      var error := CanaryError(result);
      var canary := a.queue.canary.(lastCheckedAt := Some(now), passed := Some(result.Passed?), error := error);
      var queue := a.queue.(canary := canary);
      if result.Passed? then Attempt(queue, true, a.error)
      else Attempt(queue, false, Some(Truncate(Trim("Canary validation failed. " + error.value), 600)))
  }

  predicate RollbackDue(a: Attempt) {
    !a.ok && a.queue.rollback.enabled && a.queue.rollback.commands != [] && !a.queue.rollback.attempted
  }

  function RollbackError(o: Outcome): Option<string> {
    match o
    case Passed => None
    case CommandFailed => Some("Automatic rollback failed.")
    case Threw(message) => Some(Truncate(message, 600))
  }

  function AttemptRollback(a: Attempt, now: int, o: Outcome): Attempt {
    if !RollbackDue(a) then a
    else a.(queue := a.queue.(rollback := a.queue.rollback.(
              attempted := true, lastRunAt := Some(now), succeeded := Some(o.Passed?), error := RollbackError(o))))
  }

  predicate ForcesDeadLetter(q: QueueMeta) {
    (q.canary.enabled && q.canary.passed == Some(false)) || q.rollback.attempted
  }

  function DeadLetterReason(q: QueueMeta): string {
    if !ForcesDeadLetter(q) then "max_attempts_exceeded"
    else if q.canary.passed == Some(false) then "canary_failed"
    else if q.rollback.succeeded == Some(true) then "auto_rolled_back"
    else "auto_rollback_failed"
  }

  /** The write that ends an iteration which has executed its commands. */
  function Settle(p: Payload, a: Attempt, policy: Policy, now: int): Update {
    var q := a.queue.(lastError := a.error);
    if a.ok then
      Finish(Succeeded, now, Some(Readable(p.(queue := q.(nextAttemptAt := None, dlq := false, dlqReason := None)))))
    else if !ForcesDeadLetter(q) && ShouldRetry(q.attempts, q.maxAttempts) then
      var delay := RetryDelaySeconds(q.attempts, policy.retryBackoffSeconds, policy.retryBackoffMaxSeconds);
      Requeue(p.(queue := q.(nextAttemptAt := Some(NextRetryAt(now, delay)), dlq := false, dlqReason := None)))
    else
      Finish(Failed, now, Some(Readable(p.(queue := q.(
        nextAttemptAt := None, dlq := true, dlqReason := Some(DeadLetterReason(q)))))))
  }

  // ---------------------------------------------------------------- operators and planners

  /** What the planner and the manual route put into a new payload. */
  predicate FreshQueue(q: QueueMeta) {
    && q.attempts == 0 && 1 <= q.maxAttempts <= 20
    && q.nextAttemptAt == None && !q.dlq && q.dlqReason == None && q.replayOfRunId == None
    && q.approval.status == (if q.approval.required then Pending else NoApproval)
    && q.canary.passed == None
    && !q.rollback.attempted && q.rollback.succeeded == None
  }

  predicate FreshParams(s: Stored) { s.Readable? ==> FreshQueue(s.payload.queue) }

  predicate SameTarget(r: Run, hostId: string, actionId: string) {
    r.hostId == hostId && r.actionId == actionId
  }

  predicate ActiveFor(rows: seq<Run>, hostId: string, actionId: string) {
    exists i | 0 <= i < |rows| :: Active(rows[i]) && SameTarget(rows[i], hostId, actionId)
  }

  predicate RunningFor(rows: seq<Run>, hostId: string, actionId: string) {
    exists i | 0 <= i < |rows| :: rows[i].state == Running && SameTarget(rows[i], hostId, actionId)
  }

  function NewRun(hostId: string, actionId: string, at: int, params: Stored): Run {
    Run(hostId, actionId, Queued, at, None, None, params)
  }

  function ReplayQueue(q: QueueMeta, source: nat): QueueMeta {
    q.(attempts := 0, nextAttemptAt := None, lastAttemptAt := None, lastError := None,
       dlq := false, dlqReason := None, replayOfRunId := Some(Decimal(source)))
  }

  function ReviewedQueue(q: QueueMeta): QueueMeta {
    q.(dlq := false, dlqReason := Some("replayed"), nextAttemptAt := None)
  }

  function DecisionReason(reason: Option<string>, fallback: string): string {
    var trimmed := Trim(if reason.Some? then reason.value else "");
    Truncate(if trimmed == "" then fallback else trimmed, 600)
  }

  function ApprovedQueue(q: QueueMeta, now: int, actor: Option<string>, reason: Option<string>): QueueMeta {
    q.(approval := q.approval.(reason := Some(DecisionReason(reason, "approved")), approvedAt := Some(now),
                               approvedByUserId := actor, status := Approved),
       nextAttemptAt := None, lastError := None)
  }

  function RejectedQueue(q: QueueMeta, now: int, actor: Option<string>, reason: Option<string>): QueueMeta {
    var text := Some(DecisionReason(reason, "rejected"));
    q.(approval := q.approval.(reason := text, approvedAt := Some(now),
                               approvedByUserId := actor, status := Rejected),
       nextAttemptAt := None, lastError := text)
  }

  /** Why replayRemediationRun and setRemediationRunApproval refuse a run. */
  datatype Refusal =
    | NotFound | StillActive | NotReplayable | ActiveRunExists | NotQueued | InvalidPayload | NoApprovalNeeded

  function ReplayRefusal(s: System, id: nat): Option<Refusal> {
    if id >= |s.rows| then Some(NotFound)
    else if Active(s.rows[id]) then Some(StillActive)
    else if s.rows[id].params.Unreadable? then Some(NotReplayable)
    else if ActiveFor(s.rows, s.rows[id].hostId, s.rows[id].actionId) then Some(ActiveRunExists)
    else None
  }

  function DecisionRefusal(s: System, id: nat): Option<Refusal> {
    if id >= |s.rows| then Some(NotFound)
    else if s.rows[id].state != Queued then Some(NotQueued)
    else if s.rows[id].params.Unreadable? then Some(InvalidPayload)
    else if !s.rows[id].params.payload.queue.approval.required then Some(NoApprovalNeeded)
    else None
  }

  // ---------------------------------------------------------------- steps

  /** What a create looks for first: the planner for active runs of the target, the manual route for
      running ones; nothing when its reading was taken earlier. */
  datatype CreateTest = NoneActive | NoneRunning | Untested

  datatype Step =
    | Enqueue(hostId: string, actionId: string, at: int, params: Stored, test: CreateTest)
    | Scan(w: nat, id: nat, now: int)
    | TakeClaim(w: nat, now: int)
    | Reread(w: nat, hostEnabled: bool, policy: Policy)
    | CheckClaim(w: nat, now: int, ttlNow: int)
    | RunCommands(w: nat, outcome: Outcome)
    | RunCanary(w: nat, outcome: Outcome)
    | RunRollback(w: nat, outcome: Outcome)
    | SettleRun(w: nat)
    | Approve(id: nat, now: int, actor: Option<string>, reason: Option<string>)
    | Reject(id: nat, now: int, actor: Option<string>, reason: Option<string>)
    | Replay(id: nat, now: int)

  predicate IsWorkerStep(step: Step) {
    step.Scan? || step.TakeClaim? || step.Reread? || step.CheckClaim? || step.RunCommands?
    || step.RunCanary? || step.RunRollback? || step.SettleRun?
  }

  function Init(workers: nat): System {
    System([], seq(workers, _ => Idle), [], Start)
  }

  /** The candidate test of claimNextQueuedRun: unreadable runs are claimed so that they can fail. */
  predicate Claimable(r: Run, now: int) {
    r.state == Queued && (r.params.Readable? ==> Ready(r.params.payload.queue, now))
  }

  /** May this step happen now? A step that may not leaves the system as it is. */
  predicate Enabled(s: System, step: Step) {
    && (IsWorkerStep(step) ==> step.w < |s.workers|)
    && match step
       case Enqueue(h, a, _, params, test) =>
         && FreshParams(params)
         && (test == NoneActive ==> !ActiveFor(s.rows, h, a))
         && (test == NoneRunning ==> !RunningFor(s.rows, h, a))
       case Scan(w, id, now) => s.workers[w].Idle? && id < |s.rows| && Claimable(s.rows[id], now)
       case TakeClaim(w, _) => s.workers[w].Picked? && s.workers[w].id < |s.rows|
       case Reread(w, _, _) => s.workers[w].Claimed? && s.workers[w].id < |s.rows|
       case CheckClaim(w, _, _) => s.workers[w].Loaded? && s.workers[w].id < |s.rows|
       case RunCommands(w, _) => s.workers[w].Cleared? && s.workers[w].claim.run.params.Readable?
       case RunCanary(w, _) => s.workers[w].Working? && s.workers[w].stage == AfterCommands
       case RunRollback(w, _) => s.workers[w].Working? && s.workers[w].stage == AfterCanary
       case SettleRun(w) =>
         && s.workers[w].Working? && s.workers[w].stage == AfterRollback
         && s.workers[w].id < |s.rows| && s.workers[w].claim.run.params.Readable?
       case Approve(id, _, _, _) => DecisionRefusal(s, id) == None
       case Reject(id, _, _, _) => DecisionRefusal(s, id) == None
       case Replay(id, _) => ReplayRefusal(s, id) == None
  }

  function SetWorker(s: System, w: nat, phase: Worker): System
    requires w < |s.workers|
  {
    s.(workers := s.workers[w := phase])
  }

  function WriteRow(s: System, id: nat, u: Update): System
    requires id < |s.rows|
  {
    s.(rows := s.rows[id := ApplyUpdate(s.rows[id], u)])
  }

  function Note(s: System, e: Event): System {
    s.(log := Then(s.log, e))
  }

  /** The conditional update: the claim succeeds only on a row that is still queued. */
  function DoTakeClaim(s: System, w: nat, now: int): System
    requires Enabled(s, TakeClaim(w, now))
  {
    var id := s.workers[w].id;
    if s.rows[id].state == Queued then
      SetWorker(WriteRow(s, id, Update(Running, Some(Some(now)), None, None)), w, Claimed(id))
    else SetWorker(s, w, Idle)
  }

  function DoCheckClaim(s: System, w: nat, now: int, ttlNow: int): System
    requires Enabled(s, CheckClaim(w, now, ttlNow))
  {
    var c := s.workers[w];
    match Admit(c.claim, now, ttlNow)
    case Release(u) => SetWorker(WriteRow(s, c.id, u), w, Idle)
    case Proceed => SetWorker(s, w, Cleared(c.id, c.claim, now, ttlNow))
  }

  function DoRunCommands(s: System, w: nat, o: Outcome): System
    requires Enabled(s, RunCommands(w, o))
  {
    var c := s.workers[w];
    var q := c.claim.run.params.payload.queue;
    var a := AttemptCommands(q, c.now, o);
    Note(SetWorker(s, w, Working(c.id, c.claim, c.now, AfterCommands, a)),
         Executed(c.id, c.now, a.queue.attempts, c.claim.policy.retryBackoffSeconds,
                  c.claim.policy.retryBackoffMaxSeconds, q.approval.required))
  }

  function DoRunRollback(s: System, w: nat, o: Outcome): System
    requires Enabled(s, RunRollback(w, o))
  {
    var c := s.workers[w];
    var s' := SetWorker(s, w, c.(stage := AfterRollback, attempt := AttemptRollback(c.attempt, c.now, o)));
    if RollbackDue(c.attempt) then Note(s', RolledBack(c.id)) else s'
  }

  function ReplayOf(source: Run, id: nat, now: int): Run
    requires source.params.Readable?
  {
    var p := source.params.payload;
    NewRun(source.hostId, source.actionId, now, Readable(p.(queue := ReplayQueue(p.queue, id))))
  }

  /** A dead-lettered source counts as reviewed once its replay is queued. */
  function Reviewed(source: Run, now: int): Update
    requires source.params.Readable?
  {
    var p := source.params.payload;
    Update(Canceled, None, Some(if source.finishedAt.Some? then source.finishedAt else Some(now)),
           Some(Readable(p.(queue := ReviewedQueue(p.queue)))))
  }

  function DoReplay(s: System, id: nat, now: int): System
    requires Enabled(s, Replay(id, now))
  {
    var source := s.rows[id];
    var s' := if source.state == Failed && source.params.payload.queue.dlq
              then WriteRow(s, id, Reviewed(source, now)) else s;
    s'.(rows := s'.rows + [ReplayOf(source, id, now)], parents := s'.parents + [Some(id)])
  }

  function DoDecision(s: System, id: nat, state: RunState, finishedAt: Option<int>, q: QueueMeta): System
    requires DecisionRefusal(s, id) == None
  {
    var p := s.rows[id].params.payload;
    WriteRow(s, id, Update(state, Some(None), Some(finishedAt), Some(Readable(p.(queue := q)))))
  }

  function Apply(s: System, step: Step): System {
    if !Enabled(s, step) then s
    else match step
      case Enqueue(h, a, at, params, _) =>
        s.(rows := s.rows + [NewRun(h, a, at, params)], parents := s.parents + [None])
      case Scan(w, id, _) => SetWorker(s, w, Picked(id))
      case TakeClaim(w, now) => DoTakeClaim(s, w, now)
      case Reread(w, hostEnabled, policy) =>
        var id := s.workers[w].id;
        SetWorker(s, w, Loaded(id, Claim(s.rows[id], hostEnabled, policy)))
      case CheckClaim(w, now, ttlNow) => DoCheckClaim(s, w, now, ttlNow)
      case RunCommands(w, o) => DoRunCommands(s, w, o)
      case RunCanary(w, o) =>
        var c := s.workers[w];
        SetWorker(s, w, c.(stage := AfterCanary, attempt := AttemptCanary(c.attempt, c.now, o)))
      case RunRollback(w, o) => DoRunRollback(s, w, o)
      case SettleRun(w) =>
        var c := s.workers[w];
        SetWorker(WriteRow(s, c.id, Settle(c.claim.run.params.payload, c.attempt, c.claim.policy, c.now)), w, Idle)
      case Approve(id, now, actor, reason) =>
        Note(DoDecision(s, id, Queued, None, ApprovedQueue(s.rows[id].params.payload.queue, now, actor, reason)),
             ApprovalGranted(id))
      case Reject(id, now, actor, reason) =>
        DoDecision(s, id, Canceled, Some(now), RejectedQueue(s.rows[id].params.payload.queue, now, actor, reason))
      case Replay(id, now) => DoReplay(s, id, now)
  }

  /** The state after a whole history of steps. */
  function Play(s: System, steps: seq<Step>): System
    decreases |steps|
  {
    if steps == [] then s else Apply(Play(s, steps[..|steps| - 1]), steps[|steps| - 1])
  }
}
