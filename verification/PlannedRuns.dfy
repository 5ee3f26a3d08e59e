/** What becomes of the runs that planner and manual route queue (src/lib/remediate/autonomous-runtime.ts,
    src/app/api/remediate/route.ts, src/lib/remediate/queue.ts): under the guard they were admitted by,
    the drain loop lets them through. */
module PlannedRuns {
  import opened Common
  import opened QueueRuntime
  import opened DrainProtocol
  import opened DrainInvariant
  import opened DrainTheorems
  import opened QueueOrder
  import opened RemediationPolicy
  import opened RunsGetThrough
  import AutonomousPlanner
  import DrainSafety
  import Guard
  import ManualRoute
  import RemediationQueue

  /** The run is the action's own, and the checks of the drain loop let it through exactly when its host
      is enabled, its time to live since the request is not over, and it is due when they look. */
  ghost predicate LetThrough(a: AutonomousPlanner.PlanAction, requestedAt: int, r: Run, t: RemediationQueue.Turn) {
    && r.params.Readable? && r.params.payload.commands == a.commands
    && (GetsThrough(r, t) <==>
          && t.hostEnabled && 0 <= t.ttlNow - requestedAt <= 60_000 * t.policy.queueTtlMinutes
          && (t.claimNow <= t.now || MayStart(r, t.now)))
  }

  lemma StoredIsLetThrough(p: AutonomousPlanner.Pass, a: AutonomousPlanner.PlanAction, now: int, stored: Run, r: Run,
                           t: RemediationQueue.Turn)
    requires AutonomousPlanner.ActionStored(p, a, now, stored) && Lasts(stored, r)
    requires Guard.Accepted(a.commands, p.guard) && t.policy.guard == p.guard
    ensures LetThrough(a, now, r, t)
  {
  }

  /** A turn of an idle worker that nobody races for executes the run, once, when its host is enabled and
      its time to live is not over. */
  lemma LetThroughIsExecuted(a: AutonomousPlanner.PlanAction, requestedAt: int, s: System, id: nat, w: nat,
                             t: RemediationQueue.Turn)
    requires Inv(s) && w < |s.workers| && s.workers[w] == Idle
    requires RemediationQueue.TurnFor(t, w) && t.races[0] == [] && t.claimNow <= t.now
    requires id < |s.rows| && LetThrough(a, requestedAt, s.rows[id], t) && Pick(s.rows, t.claimNow) == Some(id)
    ensures Executions(RemediationQueue.AfterTurn(s, w, t).log, id) == Executions(s.log, id)
              + (if t.hostEnabled && 0 <= t.ttlNow - requestedAt <= 60_000 * t.policy.queueTtlMinutes then 1 else 0)
  {
    DrainTurnIsExact(s, w, t);
  }

  /** What the planner admits, whatever happens after: as long as it is queued it may start exactly when
      it has its approval, if it must be approved, and any retry delay is over; and under the guard
      that admitted it the checks let it through. */
  lemma AdmittedRunGetsThrough(p: AutonomousPlanner.Pass, s: AutonomousPlanner.Progress, turn: AutonomousPlanner.Turn,
                               more: seq<Step>, t: RemediationQueue.Turn, at: int)
    requires InRange(p.policy) && Inv(s.table) && AutonomousPlanner.Admits(p, s, turn) && t.policy.guard == p.guard
    ensures var id := |AutonomousPlanner.Written(s.table, turn).rows|;
            var u := Play(AutonomousPlanner.TakeTurn(AutonomousPlanner.RulesOf(p), s, turn).table, more);
            && Inv(u) && id < |u.rows| && LetThrough(turn.action, turn.now, u.rows[id], t)
            && (u.rows[id].params.payload.queue.approval.required <==> AutonomousPlanner.MustBeApproved(p, turn.action))
            && (u.rows[id].state == Queued ==>
                  (MayStart(u.rows[id], at) <==> FreeToStart(u.log, id, u.rows[id], at)))
  {
    var next := AutonomousPlanner.TakeTurn(AutonomousPlanner.RulesOf(p), s, turn).table;
    var u := Play(next, more);
    AutonomousPlanner.TurnKeepsInv(AutonomousPlanner.RulesOf(p), s, turn);
    AdmittedStands(p, s, turn, next, more);
    var id := |AutonomousPlanner.Written(s.table, turn).rows|;
    DrainSafety.PlayKeepsInv(next, more);
    var r :| AutonomousPlanner.Planned(p, turn.action, turn.now, r) && Lasts(r, u.rows[id]);
    StoredIsLetThrough(p, turn.action, turn.now, r, u.rows[id], t);
    if u.rows[id].state == Queued { FreeExactly(u, id, at); }
  }

  lemma AdmittedStands(p: AutonomousPlanner.Pass, s: AutonomousPlanner.Progress, turn: AutonomousPlanner.Turn,
                       table: System, more: seq<Step>)
    requires InRange(p.policy) && AutonomousPlanner.Admits(p, s, turn) && Inv(table)
    requires table == AutonomousPlanner.TakeTurn(AutonomousPlanner.RulesOf(p), s, turn).table
    ensures var id, u := |AutonomousPlanner.Written(s.table, turn).rows|, Play(table, more);
            && id < |u.rows| && Guard.Accepted(turn.action.commands, p.guard)
            && exists r: Run :: AutonomousPlanner.Planned(p, turn.action, turn.now, r) && Lasts(r, u.rows[id])
  {
    var next := AutonomousPlanner.TakeTurn(AutonomousPlanner.RulesOf(p), s, turn);
    AutonomousPlanner.OneTurn(p, s, turn);
    AutonomousPlanner.DecisionIsRight(p, s, turn);
    AutonomousPlanner.RightRunStands(p, s, turn, next.decisions[|s.decisions|], table, more);
  }

  /** The same of a manual request, which never waits for an approval. */
  lemma RequestGetsThrough(p: AutonomousPlanner.Pass, s: System, r: ManualRoute.Request, more: seq<Step>,
                           t: RemediationQueue.Turn, at: int)
    requires InRange(p.policy) && Inv(s) && Guard.Accepted(r.action.commands, p.guard) && t.policy.guard == p.guard
    ensures var id, u := |s.rows|, Play(Apply(s, ManualRoute.RequestStep(p, r)), more);
            && Inv(u) && id < |u.rows| && LetThrough(r.action, r.now, u.rows[id], t)
            && !u.rows[id].params.payload.queue.approval.required
            && (u.rows[id].state == Queued ==>
                  (MayStart(u.rows[id], at) <==> FreeToStart(u.log, id, u.rows[id], at)))
  {
    var next := Apply(s, ManualRoute.RequestStep(p, r));
    var id, u := |s.rows|, Play(next, more);
    ManualRoute.RequestAdds(p, s, r);
    DrainSafety.StepKeepsInv(s, ManualRoute.RequestStep(p, r));
    HistoryExtends(next, more, id);
    StoredIsLetThrough(p, r.action, r.now, next.rows[id], u.rows[id], t);
    if u.rows[id].state == Queued { FreeExactly(u, id, at); }
  }
}
