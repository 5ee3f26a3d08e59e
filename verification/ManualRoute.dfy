/** The execute branch of the manual remediation route (src/app/api/remediate/route.ts): its refusals,
    the run it queues, and when that run is the second active one for its target. Others act between its
    readings, and between the last of them and its create. */
module ManualRoute {
  import opened Common
  import opened QueueRuntime
  import opened DrainProtocol
  import opened AutonomousPlanner
  import opened CanaryBucket
  import opened CommandLists
  import opened RemediationPolicy
  import DrainTheorems
  import Guard
  import LateWrites
  import RemediationQueue

  /** Why a request is refused, in the order the checks run. */
  datatype ManualRefusal =
    | Unconfirmed
    | Blocked
    | AlreadyRunning
    | RateLimit
    | InCooldown
    | HostFull
    | QueueFull
    | NoDryRun

  /** The part of a request that decides: the action, whether the phrase it asks for was given, and
      when the latest successful dry run of the action was requested. */
  datatype Request = Request(action: PlanAction, confirmed: bool, latestDryRun: Option<int>, now: int)

  predicate FreshDryRun(p: Pass, r: Request) {
    r.latestDryRun.Some? && WithinMinutes(r.latestDryRun.value, p.policy.dryRunMaxAgeMinutes, r.now)
  }

  /** The table after the first k gaps. */
  function Amid(table: System, gaps: seq<seq<Step>>, k: nat): System
    requires k <= |gaps|
  {
    if k == 0 then table else Play(Amid(table, gaps, k - 1), gaps[k - 1])
  }

  /** What the route reads of the table, in this order. */
  datatype Readings = Readings(running: bool, executeInHour: nat, latest: Option<int>, activeForHost: nat,
                               queuedGlobal: nat)

  function ReadAmid(p: Pass, table: System, gaps: seq<seq<Step>>, r: Request): Readings
    requires |gaps| == 5
  {
    Readings(RunningFor(table.rows, p.host, r.action.id),
             Count(p, Amid(table, gaps, 1).rows, ExecuteHour),
             LatestRequest(Amid(table, gaps, 2).rows, p.host, r.action.id),
             Count(p, Amid(table, gaps, 3).rows, HostActive),
             Count(p, Amid(table, gaps, 4).rows, GlobalQueued))
  }

  function ManualVerdict(p: Pass, seen: Readings, r: Request): Option<ManualRefusal> {
    if !r.confirmed then Some(Unconfirmed)
    else if Guard.Issues(r.action.commands, p.guard) != [] then Some(Blocked)
    else if seen.running then Some(AlreadyRunning)
    else if seen.executeInHour >= p.policy.maxExecutePerHour then Some(RateLimit)
    else if seen.latest.Some? && p.policy.executeCooldownMinutes > 0
            && WithinMinutes(seen.latest.value, p.policy.executeCooldownMinutes, r.now) then Some(InCooldown)
    else if seen.activeForHost >= p.policy.maxQueuePerHost then Some(HostFull)
    else if seen.queuedGlobal >= p.policy.maxQueueTotal then Some(QueueFull)
    else if !FreshDryRun(p, r) then Some(NoDryRun)
    else None
  }

  function ManualPayload(p: Pass, a: PlanAction): Payload {
    var checks := CommandList(a.canaryChecks);
    var rollback := CommandList(a.rollbackCommands);
    var rollbackEnabled := p.policy.autoRollback && rollback != [];
    Payload(a.id, a.commands, a.sourceCodes, a.rollbackNotes, p.profile,
      QueueMeta(0, p.policy.maxRetryAttempts, None, None, None, false, None, None,
        ApprovalMeta(false, NoApproval, None, None, None, None, None),
        CanaryMeta(checks != [], 100, 0, true, checks, None, None, None),
        RollbackMeta(rollbackEnabled, false, None, if rollbackEnabled then rollback else [], None, None),
        false, None, Some(TierText(a.tier))))
  }

  /** A manual run never waits for an approval, whatever tier and risk say: it may be claimed at once,
      where the planner's run of the same action would wait. */
  lemma ManualRunsNeedNoApproval(p: Pass, a: PlanAction, at: int)
    requires InRange(p.policy)
    ensures var q := ManualPayload(p, a).queue;
            && FreshParams(Readable(ManualPayload(p, a))) && Ready(q, at) && !q.autoQueued
            && (MustBeApproved(p, a) ==> !Ready(NewPayload(p, a, at).queue, at))
  {
    NewRunsAreFresh(p, a, at, at);
  }

  /** The row that an accepted request becomes: the action as the planner would store it, without an
      approval, in every rollout, and not as the planner's own. */
  ghost predicate ManuallyQueued(p: Pass, r: Request, row: Run) {
    && ActionStored(p, r.action, r.now, row)
    && (var q := row.params.payload.queue;
        && q.approval == ApprovalMeta(false, NoApproval, None, None, None, None, None)
        && q.canary.selected && q.canary.rolloutPercent == 100 && q.canary.bucket == 0
        && !q.autoQueued && q.autoReason == None)
  }

  lemma ManualRollbackIsStored(p: Pass, a: PlanAction)
    ensures RollbackStored(p.policy.autoRollback, a.rollbackCommands, ManualPayload(p, a).queue.rollback)
  {
    CommandListIsCleaned(a.rollbackCommands);
  }

  lemma ManualChecksAreStored(p: Pass, a: PlanAction)
    ensures ChecksStored(a.canaryChecks, ManualPayload(p, a).queue.canary)
  {
    CommandListIsCleaned(a.canaryChecks);
  }

  lemma RequestIsStored(p: Pass, r: Request)
    ensures ManuallyQueued(p, r, RequestRun(p, r))
  {
    ManualRollbackIsStored(p, r.action);
    ManualChecksAreStored(p, r.action);
  }

  predicate TargetRunning(rows: seq<Run>, host: string, action: string) {
    exists i | 0 <= i < |rows| :: rows[i].state == Running && rows[i].hostId == host && rows[i].actionId == action
  }

  /** The latest successful dry run is recent enough, and not of the future. */
  predicate DryRunCounts(p: Pass, r: Request) {
    r.latestDryRun.Some? && 0 <= r.now - r.latestDryRun.value <= p.policy.dryRunMaxAgeMinutes * 60 * 1000
  }

  /** Everything a request must meet, as a whole, each condition in the table as it then is. */
  ghost predicate Acceptable(p: Pass, table: System, gaps: seq<seq<Step>>, r: Request)
    requires |gaps| == 5
  {
    && r.confirmed && Guard.Accepted(r.action.commands, p.guard)
    && !TargetRunning(table.rows, p.host, r.action.id)
    && Count(p, Amid(table, gaps, 1).rows, ExecuteHour) < p.policy.maxExecutePerHour
    && !RequestedLately(Amid(table, gaps, 2).rows, p.host, r.action.id, p.policy.executeCooldownMinutes, r.now)
    && Count(p, Amid(table, gaps, 3).rows, HostActive) < p.policy.maxQueuePerHost
    && Count(p, Amid(table, gaps, 4).rows, GlobalQueued) < p.policy.maxQueueTotal
    && DryRunCounts(p, r)
  }

  ghost predicate Applies(refusal: ManualRefusal, p: Pass, table: System, gaps: seq<seq<Step>>, r: Request)
    requires |gaps| == 5
  {
    match refusal
    case Unconfirmed => !r.confirmed
    case Blocked => !Guard.Accepted(r.action.commands, p.guard)
    case AlreadyRunning => TargetRunning(table.rows, p.host, r.action.id)
    case RateLimit => Count(p, Amid(table, gaps, 1).rows, ExecuteHour) >= p.policy.maxExecutePerHour
    case InCooldown =>
      RequestedLately(Amid(table, gaps, 2).rows, p.host, r.action.id, p.policy.executeCooldownMinutes, r.now)
    case HostFull => Count(p, Amid(table, gaps, 3).rows, HostActive) >= p.policy.maxQueuePerHost
    case QueueFull => Count(p, Amid(table, gaps, 4).rows, GlobalQueued) >= p.policy.maxQueueTotal
    case NoDryRun => !DryRunCounts(p, r)
  }

  lemma RunningForExactly(rows: seq<Run>, host: string, action: string)
    ensures RunningFor(rows, host, action) <==> TargetRunning(rows, host, action)
  {
    if RunningFor(rows, host, action) {
      var i :| 0 <= i < |rows| && rows[i].state == Running && SameTarget(rows[i], host, action);
      assert rows[i].hostId == host && rows[i].actionId == action;
    }
    if TargetRunning(rows, host, action) {
      var i :| 0 <= i < |rows| && rows[i].state == Running && rows[i].hostId == host && rows[i].actionId == action;
      assert SameTarget(rows[i], host, action);
    }
  }

  /** The place of a refusal in the order of the checks. */
  function Place(refusal: ManualRefusal): nat {
    match refusal
    case Unconfirmed => 0 case Blocked => 1 case AlreadyRunning => 2 case RateLimit => 3
    case InCooldown => 4 case HostFull => 5 case QueueFull => 6 case NoDryRun => 7
  }

  /** A request is accepted exactly when it meets every condition, and refused for the first in the order
      of the checks that it does not meet. */
  lemma VerdictIsExact(p: Pass, table: System, gaps: seq<seq<Step>>, r: Request)
    requires |gaps| == 5
    ensures var verdict := ManualVerdict(p, ReadAmid(p, table, gaps, r), r);
            && (verdict == None <==> Acceptable(p, table, gaps, r))
            && (verdict.Some? ==>
                  && Applies(verdict.value, p, table, gaps, r)
                  && forall other: ManualRefusal :: Place(other) < Place(verdict.value) ==>
                       !Applies(other, p, table, gaps, r))
  {
    Guard.GuardIsExact(r.action.commands, p.guard);
    RunningForExactly(table.rows, p.host, r.action.id);
    CoolsDownExactly(p, Amid(table, gaps, 2).rows, r.action, r.now);
  }

  function RequestRun(p: Pass, r: Request): Run {
    NewRun(p.host, r.action.id, r.now, Readable(ManualPayload(p, r.action)))
  }

  function RequestStep(p: Pass, r: Request): Step {
    Enqueue(p.host, r.action.id, r.now, Readable(ManualPayload(p, r.action)), Untested)
  }

  /** A queued run for the target that the route does not notice. */
  predicate Overlooked(rows: seq<Run>, host: string, action: string) {
    exists i | 0 <= i < |rows| :: rows[i].state == Queued && SameTarget(rows[i], host, action)
  }

  /** A request adds its run to the table as it is when it writes, and leaves two active runs for its
      target exactly when one is active then. */
  lemma RequestAdds(p: Pass, s: System, r: Request)
    requires InRange(p.policy)
    ensures Apply(s, RequestStep(p, r)).rows == s.rows + [RequestRun(p, r)]
    ensures ManuallyQueued(p, r, RequestRun(p, r))
    ensures DrainTheorems.UniqueActive(s.rows) ==>
              (DrainTheorems.UniqueActive(Apply(s, RequestStep(p, r)).rows) <==>
                 !TargetActive(s.rows, p.host, r.action.id))
  {
    RequestIsStored(p, r);
    ActiveForExactly(s.rows, p.host, r.action.id);
    ManualRunsNeedNoApproval(p, r.action, r.now);
    if DrainTheorems.UniqueActive(s.rows) { LateWrites.AppendedActive(s.rows, RequestRun(p, r)); }
  }

  ghost predicate NobodyBetween(gaps: seq<seq<Step>>) {
    forall i | 0 <= i < |gaps| :: gaps[i] == []
  }

  lemma {:induction false} StandsStill(table: System, gaps: seq<seq<Step>>, k: nat)
    requires k <= |gaps| && NobodyBetween(gaps)
    ensures Amid(table, gaps, k) == table
  {
    if k > 0 { StandsStill(table, gaps, k - 1); }
  }

  /** An accepted request that nobody disturbs leaves two active runs for its target exactly when one
      was queued; that one was requested longer ago than the cooldown, unless the latest request is
      dated in the future. */
  lemma SecondActiveRunExactlyWhen(p: Pass, s: System, gaps: seq<seq<Step>>, r: Request)
    requires DrainTheorems.UniqueActive(s.rows) && InRange(p.policy)
    requires |gaps| == 5 && NobodyBetween(gaps) && ManualVerdict(p, ReadAmid(p, s, gaps, r), r) == None
    ensures DrainTheorems.UniqueActive(Apply(s, RequestStep(p, r)).rows) <==>
              !Overlooked(s.rows, p.host, r.action.id)
    ensures forall i | 0 <= i < |s.rows| && s.rows[i].state == Queued && SameTarget(s.rows[i], p.host, r.action.id) ::
              OldEnough(p, s.rows, r, s.rows[i])
  {
    StandsStill(s, gaps, 2);
    RequestAdds(p, s, r);
    ActiveForExactly(s.rows, p.host, r.action.id);
    ActiveIsOverlooked(s.rows, p.host, r.action.id);
    QueuedOnesAreOld(p, s.rows, r);
  }

  /** The run was requested longer ago than the cooldown, or there is none, or the latest request is of
      the future. */
  predicate OldEnough(p: Pass, rows: seq<Run>, r: Request, run: Run) {
    || p.policy.executeCooldownMinutes == 0
    || (exists j | 0 <= j < |rows| :: SameTarget(rows[j], p.host, r.action.id) && rows[j].requestedAt > r.now)
    || r.now - run.requestedAt > p.policy.executeCooldownMinutes * 60_000
  }

  lemma QueuedOnesAreOld(p: Pass, rows: seq<Run>, r: Request)
    requires InRange(p.policy) && !CoolsDown(p, rows, r.action, r.now)
    ensures forall i | 0 <= i < |rows| && SameTarget(rows[i], p.host, r.action.id) :: OldEnough(p, rows, r, rows[i])
  {
    var latest := LatestRequest(rows, p.host, r.action.id);
    if latest.Some? {
      var j :| 0 <= j < |rows| && SameTarget(rows[j], p.host, r.action.id) && rows[j].requestedAt == latest.value;
    }
  }

  lemma ActiveIsOverlooked(rows: seq<Run>, host: string, action: string)
    requires !RunningFor(rows, host, action)
    ensures ActiveFor(rows, host, action) <==> Overlooked(rows, host, action)
  {
    if ActiveFor(rows, host, action) {
      var i :| 0 <= i < |rows| && Active(rows[i]) && SameTarget(rows[i], host, action);
      assert rows[i].state == Queued;
    }
    if Overlooked(rows, host, action) {
      var i :| 0 <= i < |rows| && rows[i].state == Queued && SameTarget(rows[i], host, action);
      assert Active(rows[i]);
    }
  }

  /** The execute branch of the route. */
  method ExecuteRemediation(p: Pass, table: RemediationQueue.RunTable, r: Request, gaps: seq<seq<Step>>)
    returns (refusal: Option<ManualRefusal>, runId: nat)
    requires table.Valid() && InRange(p.policy) && |gaps| == 5
    modifies table
    ensures table.Valid()
    ensures refusal == ManualVerdict(p, ReadAmid(p, old(table.Sys()), gaps, r), r)
    ensures table.Sys() == match refusal
                           case None => Apply(Amid(old(table.Sys()), gaps, 5), RequestStep(p, r))
                           case Some(Unconfirmed) => old(table.Sys())
                           case Some(Blocked) => old(table.Sys())
                           case Some(_) => Amid(old(table.Sys()), gaps, 4)
    ensures refusal.None? ==> runId == |table.rows| - 1 && ManuallyQueued(p, r, table.rows[runId])
  {
    if !r.confirmed { return Some(Unconfirmed), 0; }
    var issues := Guard.ValidateCommands(r.action.commands, p.guard);
    if |issues| > 0 { return Some(Blocked), 0; }
    var seen := ReadTable(p, table, r, gaps);
    refusal := Refuse(p, seen, r);
    runId := 0;
    if refusal.Some? { return; }
    table.Elapse(gaps[4]);
    runId := QueueRun(p, table, r);
  }

  /** The create of the route. */
  method QueueRun(p: Pass, table: RemediationQueue.RunTable, r: Request) returns (runId: nat)
    requires table.Valid() && InRange(p.policy)
    modifies table
    ensures table.Valid() && table.Sys() == Apply(old(table.Sys()), RequestStep(p, r))
    ensures runId == |table.rows| - 1 && ManuallyQueued(p, r, table.rows[runId])
  {
    runId := |table.rows|;
    RequestIsStored(p, r);
    ManualRunsNeedNoApproval(p, r.action, r.now);
    table.CreateRun(p.host, r.action.id, r.now, Readable(ManualPayload(p, r.action)));
  }

  /** The five queries, with others acting in between. */
  method ReadTable(p: Pass, table: RemediationQueue.RunTable, r: Request, gaps: seq<seq<Step>>)
    returns (seen: Readings)
    requires table.Valid() && |gaps| == 5
    modifies table
    ensures table.Valid() && table.Sys() == Amid(old(table.Sys()), gaps, 4)
    ensures seen == ReadAmid(p, old(table.Sys()), gaps, r)
  {
    ghost var start := table.Sys();
    assert Amid(start, gaps, 0) == start;
    var runningExecuteRun := RunningFor(table.rows, p.host, r.action.id);
    table.Elapse(gaps[0]);
    assert table.Sys() == Amid(start, gaps, 1);
    var recentExecuteCount := Count(p, table.rows, ExecuteHour);
    table.Elapse(gaps[1]);
    assert table.Sys() == Amid(start, gaps, 2);
    var latestExecuteRun := LatestRequest(table.rows, p.host, r.action.id);
    table.Elapse(gaps[2]);
    assert table.Sys() == Amid(start, gaps, 3);
    var queuedOrRunningForHost := Count(p, table.rows, HostActive);
    table.Elapse(gaps[3]);
    assert table.Sys() == Amid(start, gaps, 4);
    var totalQueued := Count(p, table.rows, GlobalQueued);
    return Readings(runningExecuteRun, recentExecuteCount, latestExecuteRun, queuedOrRunningForHost, totalQueued);
  }

  method Refuse(p: Pass, seen: Readings, r: Request) returns (refusal: Option<ManualRefusal>)
    requires r.confirmed && Guard.Issues(r.action.commands, p.guard) == []
    ensures refusal == ManualVerdict(p, seen, r)
  {
    if seen.running { return Some(AlreadyRunning); }
    if seen.executeInHour >= p.policy.maxExecutePerHour { return Some(RateLimit); }
    if seen.latest.Some? && p.policy.executeCooldownMinutes > 0
       && WithinMinutes(seen.latest.value, p.policy.executeCooldownMinutes, r.now) {
      return Some(InCooldown);
    }
    if seen.activeForHost >= p.policy.maxQueuePerHost { return Some(HostFull); }
    if seen.queuedGlobal >= p.policy.maxQueueTotal { return Some(QueueFull); }
    if r.latestDryRun.None? || !WithinMinutes(r.latestDryRun.value, p.policy.dryRunMaxAgeMinutes, r.now) {
      return Some(NoDryRun);
    }
    return None;
  }
}
