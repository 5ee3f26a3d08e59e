/** What becomes of the queue when an operator's decision, a replay or a create is written later than
    the reading it rests on (src/lib/remediate/queue.ts, src/app/api/remediate/route.ts): each writes
    by id, without looking at the table again. */
module LateWrites {
  import opened Common
  import opened QueueRuntime
  import opened DrainProtocol
  import opened DrainInvariant
  import opened DrainSafety
  import opened DrainTheorems

  // ---------------------------------------------------------------- late decisions

  /** The marker of a replay never changes. */
  lemma MarkerLasts(s: System, more: seq<Step>, id: nat)
    requires Inv(s) && id < |s.rows| && s.rows[id].params.Readable?
    ensures var t := Play(s, more);
            && id < |t.rows| && t.rows[id].params.Readable?
            && t.rows[id].params.payload.queue.replayOfRunId == s.rows[id].params.payload.queue.replayOfRunId
  {
    HistoryExtends(s, more, id);
    assert Play(s, more).parents[id] == s.parents[id];
  }

  /** An approval or rejection decided on an earlier reading of the row. */
  function LateApproval(s: System, id: nat, seen: Payload, now: int, actor: Option<string>,
                        reason: Option<string>): System
    requires id < |s.rows|
  {
    var approved := seen.(queue := ApprovedQueue(seen.queue, now, actor, reason));
    Note(WriteRow(s, id, Update(Queued, Some(None), Some(None), Some(Readable(approved)))), ApprovalGranted(id))
  }

  function LateRejection(s: System, id: nat, seen: Payload, now: int, actor: Option<string>,
                         reason: Option<string>): System
    requires id < |s.rows|
  {
    var rejected := seen.(queue := RejectedQueue(seen.queue, now, actor, reason));
    WriteRow(s, id, Update(Canceled, Some(None), Some(Some(now)), Some(Readable(rejected))))
  }

  /** The payload was read from the row while a decision on it was possible. */
  predicate SeenForDecision(s: System, id: nat, seen: Payload) {
    && id < |s.rows| && s.rows[id].params.Readable?
    && MetaOk(Queued, seen.queue) && seen.queue.approval.required
    && seen.queue.replayOfRunId == s.rows[id].params.payload.queue.replayOfRunId
  }

  /** Nobody works on the run, and it has neither executed nor been rolled back since the reading. */
  predicate Undisturbed(s: System, id: nat, seen: Payload)
    requires SeenForDecision(s, id, seen)
  {
    var q := s.rows[id].params.payload.queue;
    && s.rows[id].state != Running
    && seen.queue.attempts == q.attempts && seen.queue.rollback.attempted == q.rollback.attempted
  }

  lemma RunningHasItsOwner(s: System, id: nat) returns (w: nat)
    requires Inv(s) && id < |s.rows| && s.rows[id].state == Running
    ensures w < |s.workers| && RunOf(s.workers[w]) == Some(id)
  {
    assert Owned(s.workers, id);
    w :| 0 <= w < |s.workers| && RunOf(s.workers[w]) == Some(id);
  }

  /** A row nobody works on has the attempts and the rollback marker that the history gives it. */
  lemma RecordTells(s: System, id: nat)
    requires Inv(s) && id < |s.rows| && s.rows[id].params.Readable? && !Held(s.workers, id)
    ensures var q := s.rows[id].params.payload.queue;
            && Executions(s.log, id) == q.attempts
            && LineageRollbacks(s.parents, s.log, id) == (if q.rollback.attempted then 1 else 0)
  {
    assert RunOk(s.parents, s.log, id, s.rows[id], false);
  }

  /** A late approval keeps the invariant exactly when the run is undisturbed and no replay of it has
      been queued in the meantime. Otherwise a second worker can claim the run, an attempt or a
      rollback is forgotten, or a run that has been replayed comes back. A run that was rejected,
      canceled or blocked in the meantime comes back all the same. */
  lemma LateApprovalKeepsInvExactlyWhen(s: System, id: nat, seen: Payload, now: int,
                                        actor: Option<string>, reason: Option<string>)
    requires Inv(s) && SeenForDecision(s, id, seen)
    ensures Inv(LateApproval(s, id, seen, now, actor, reason)) <==>
              Undisturbed(s, id, seen) && Some(id) !in s.parents
  {
    if Inv(LateApproval(s, id, seen, now, actor, reason)) {
      LateApprovalTells(s, id, seen, now, actor, reason);
    }
    if Undisturbed(s, id, seen) && Some(id) !in s.parents {
      LateApprovalFits(s, id, seen, now, actor, reason);
    }
  }

  lemma LateApprovalTells(s: System, id: nat, seen: Payload, now: int,
                          actor: Option<string>, reason: Option<string>)
    requires Inv(s) && SeenForDecision(s, id, seen) && Inv(LateApproval(s, id, seen, now, actor, reason))
    ensures Undisturbed(s, id, seen) && Some(id) !in s.parents
  {
    var t := LateApproval(s, id, seen, now, actor, reason);
    NotRunningNotOwned(t, id);
    if s.rows[id].state == Running { var w := RunningHasItsOwner(s, id); }
    ActiveIsNoParent(t, id);
    RecordTells(s, id);
    RecordTells(t, id);
    LineageRollbacksFrame(s.parents, s.log, ApprovalGranted(id), id);
  }

  lemma LateApprovalFits(s: System, id: nat, seen: Payload, now: int,
                         actor: Option<string>, reason: Option<string>)
    requires Inv(s) && SeenForDecision(s, id, seen) && Undisturbed(s, id, seen) && Some(id) !in s.parents
    ensures Inv(LateApproval(s, id, seen, now, actor, reason))
  {
    var log := Then(s.log, ApprovalGranted(id));
    var q := ApprovedQueue(seen.queue, now, actor, reason);
    NotRunningNotOwned(s, id);
    RecordTells(s, id);
    LineageRollbacksFrame(s.parents, s.log, ApprovalGranted(id), id);
    assert RunOk(s.parents, s.log, id, s.rows[id], false);
    assert MetaOk(Queued, q);
    assert RecordOk(s.parents, log, id, q);
    ApprovalStep(s, id, Update(Queued, Some(None), Some(None), Some(Readable(seen.(queue := q)))));
  }

  /** A late rejection keeps the invariant exactly when the run is undisturbed. */
  lemma LateRejectionKeepsInvExactlyWhen(s: System, id: nat, seen: Payload, now: int,
                                         actor: Option<string>, reason: Option<string>)
    requires Inv(s) && SeenForDecision(s, id, seen)
    ensures Inv(LateRejection(s, id, seen, now, actor, reason)) <==> Undisturbed(s, id, seen)
  {
    if Inv(LateRejection(s, id, seen, now, actor, reason)) {
      LateRejectionTells(s, id, seen, now, actor, reason);
    }
    if Undisturbed(s, id, seen) {
      LateRejectionFits(s, id, seen, now, actor, reason);
    }
  }

  lemma LateRejectionTells(s: System, id: nat, seen: Payload, now: int,
                           actor: Option<string>, reason: Option<string>)
    requires Inv(s) && SeenForDecision(s, id, seen) && Inv(LateRejection(s, id, seen, now, actor, reason))
    ensures Undisturbed(s, id, seen)
  {
    var t := LateRejection(s, id, seen, now, actor, reason);
    NotRunningNotOwned(t, id);
    if s.rows[id].state == Running { var w := RunningHasItsOwner(s, id); }
    RecordTells(s, id);
    RecordTells(t, id);
  }

  lemma LateRejectionFits(s: System, id: nat, seen: Payload, now: int,
                          actor: Option<string>, reason: Option<string>)
    requires Inv(s) && SeenForDecision(s, id, seen) && Undisturbed(s, id, seen)
    ensures Inv(LateRejection(s, id, seen, now, actor, reason))
  {
    var q := RejectedQueue(seen.queue, now, actor, reason);
    NotRunningNotOwned(s, id);
    RecordTells(s, id);
    assert RunOk(s.parents, s.log, id, s.rows[id], false);
    assert MetaOk(Canceled, q);
    assert RecordOk(s.parents, s.log, id, q);
    DecisionStep(s, id, Update(Canceled, Some(None), Some(Some(now)), Some(Readable(seen.(queue := q)))));
  }

  // ---------------------------------------------------------------- runs that come back

  /** The run is still queued, as it was read. */
  predicate StillQueued(s: System, id: nat, seen: Payload)
    requires SeenForDecision(s, id, seen)
  {
    s.rows[id].state == Queued && Undisturbed(s, id, seen)
  }

  /** Runs that are over stay over, in the state they ended in. */
  predicate FinishedStay(s: System, t: System) {
    |s.rows| <= |t.rows| && forall i | 0 <= i < |s.rows| && !Active(s.rows[i]) :: t.rows[i].state == s.rows[i].state
  }

  /** Whatever ended it in the meantime, a run that is approved late is queued again, and any worker
      may claim it at any time. */
  lemma ApprovedLateIsClaimable(s: System, id: nat, seen: Payload, now: int,
                                actor: Option<string>, reason: Option<string>, at: int)
    requires SeenForDecision(s, id, seen)
    ensures Claimable(LateApproval(s, id, seen, now, actor, reason).rows[id], at)
  {
  }

  /** A late approval leaves two active runs for the target exactly when the run was over and another
      one was active. */
  lemma LateApprovalKeepsUniqueExactlyWhen(s: System, id: nat, seen: Payload, now: int,
                                           actor: Option<string>, reason: Option<string>)
    requires id < |s.rows| && UniqueActive(s.rows)
    ensures UniqueActive(LateApproval(s, id, seen, now, actor, reason).rows) <==>
              Active(s.rows[id]) || !ActiveFor(s.rows, s.rows[id].hostId, s.rows[id].actionId)
  {
    var t := LateApproval(s, id, seen, now, actor, reason);
    var r := s.rows[id];
    if !Active(r) && ActiveFor(s.rows, r.hostId, r.actionId) {
      var i :| 0 <= i < |s.rows| && Active(s.rows[i]) && SameTarget(s.rows[i], r.hostId, r.actionId);
      assert Active(t.rows[i]) && Active(t.rows[id]) && SameTarget(t.rows[i], t.rows[id].hostId, t.rows[id].actionId);
      assert SameTarget(t.rows[id], t.rows[i].hostId, t.rows[i].actionId);
    }
  }

  /** A late approval does no harm at all, neither to the invariant nor to runs that are over, exactly
      when the run is still queued as it was read. */
  lemma LateApprovalIsHarmlessExactlyWhen(s: System, id: nat, seen: Payload, now: int,
                                          actor: Option<string>, reason: Option<string>)
    requires Inv(s) && SeenForDecision(s, id, seen)
    ensures var t := LateApproval(s, id, seen, now, actor, reason);
            && (Inv(t) && FinishedStay(s, t) <==> StillQueued(s, id, seen))
            && (UniqueActive(s.rows) && StillQueued(s, id, seen) ==> UniqueActive(t.rows))
  {
    LateApprovalKeepsInvExactlyWhen(s, id, seen, now, actor, reason);
    if Active(s.rows[id]) { ActiveIsNoParent(s, id); }
    if UniqueActive(s.rows) { LateApprovalKeepsUniqueExactlyWhen(s, id, seen, now, actor, reason); }
  }

  /** A late rejection does no harm exactly when the run is still queued as it was read, or canceled
      by then; otherwise it takes a run away from a worker, or out of the dead letters. */
  lemma LateRejectionIsHarmlessExactlyWhen(s: System, id: nat, seen: Payload, now: int,
                                           actor: Option<string>, reason: Option<string>)
    requires Inv(s) && SeenForDecision(s, id, seen)
    ensures var t := LateRejection(s, id, seen, now, actor, reason);
            && (Inv(t) && FinishedStay(s, t) <==>
                  Undisturbed(s, id, seen) && (s.rows[id].state == Queued || s.rows[id].state == Canceled))
            && (UniqueActive(s.rows) ==> UniqueActive(t.rows))
  {
    LateRejectionKeepsInvExactlyWhen(s, id, seen, now, actor, reason);
  }

  /** What was read for a decision stays fit for it, whatever happens until the write. */
  lemma SeenStays(early: System, gap: seq<Step>, id: nat)
    requires Inv(early) && DecisionRefusal(early, id) == None
    ensures var s := Play(early, gap); Inv(s) && SeenForDecision(s, id, early.rows[id].params.payload)
  {
    PlayKeepsInv(early, gap);
    MarkerLasts(early, gap, id);
    assert RunOk(early.parents, early.log, id, early.rows[id], Held(early.workers, id));
  }

  /** A decision that is written at once is the step of the protocol. */
  lemma PromptDecision(s: System, id: nat, now: int, actor: Option<string>, reason: Option<string>)
    requires DecisionRefusal(s, id) == None
    ensures var seen := s.rows[id].params.payload;
            && LateApproval(s, id, seen, now, actor, reason) == Apply(s, Approve(id, now, actor, reason))
            && LateRejection(s, id, seen, now, actor, reason) == Apply(s, Reject(id, now, actor, reason))
  {
    PromptApproval(s, id, now, actor, reason);
  }

  lemma PromptApproval(s: System, id: nat, now: int, actor: Option<string>, reason: Option<string>)
    requires DecisionRefusal(s, id) == None
    ensures LateApproval(s, id, s.rows[id].params.payload, now, actor, reason)
         == Apply(s, Approve(id, now, actor, reason))
  {
  }

  /** Over whole runs: a decision taken after the first steps and written after some more. */
  lemma LateDecisions(workers: nat, steps: seq<Step>, more: seq<Step>, id: nat, now: int,
                      actor: Option<string>, reason: Option<string>)
    requires DecisionRefusal(Play(Init(workers), steps), id) == None
    ensures var seen := Play(Init(workers), steps).rows[id].params.payload;
            var s := Play(Init(workers), steps + more);
            && SeenForDecision(s, id, seen)
            && (var approved := LateApproval(s, id, seen, now, actor, reason);
                && (Inv(approved) <==> Undisturbed(s, id, seen) && Some(id) !in s.parents)
                && (Inv(approved) && FinishedStay(s, approved) <==> StillQueued(s, id, seen))
                && (UniqueActive(s.rows) ==>
                      (UniqueActive(approved.rows) <==>
                         Active(s.rows[id]) || !ActiveFor(s.rows, s.rows[id].hostId, s.rows[id].actionId))))
            && (var rejected := LateRejection(s, id, seen, now, actor, reason);
                && (Inv(rejected) <==> Undisturbed(s, id, seen))
                && (UniqueActive(s.rows) ==> UniqueActive(rejected.rows)))
  {
    var early := Play(Init(workers), steps);
    var s := Play(Init(workers), steps + more);
    var seen := early.rows[id].params.payload;
    ReachableInv(workers, steps);
    PlayConcat(Init(workers), steps, more);
    SeenStays(early, more, id);
    LateApprovalKeepsInvExactlyWhen(s, id, seen, now, actor, reason);
    LateApprovalIsHarmlessExactlyWhen(s, id, seen, now, actor, reason);
    LateRejectionKeepsInvExactlyWhen(s, id, seen, now, actor, reason);
    LateRejectionIsHarmlessExactlyWhen(s, id, seen, now, actor, reason);
    if UniqueActive(s.rows) { LateApprovalKeepsUniqueExactlyWhen(s, id, seen, now, actor, reason); }
  }

  lemma RejectedOnly(s: System, p: Payload)
    requires s.rows == [NewRun("host", "action", 0, Readable(p))] && s.parents == [None]
    requires FreshQueue(p.queue) && p.queue.approval.required
    ensures var t := Apply(s, Reject(0, 0, None, None));
            && |t.rows| == 1 && t.parents == [None]
            && t.rows[0].state == Canceled && t.rows[0].params.Readable?
            && t.rows[0].params.payload.queue.attempts == 0 && !t.rows[0].params.payload.queue.rollback.attempted
            && SameTarget(t.rows[0], "host", "action")
  {
  }

  lemma QueuedAnew(s: System, p: Payload)
    requires |s.rows| == 1 && s.parents == [None] && s.rows[0].state == Canceled && FreshQueue(p.queue)
    ensures var t := Apply(s, Enqueue("host", "action", 0, Readable(p), NoneActive));
            && t.rows == s.rows + [NewRun("host", "action", 0, Readable(p))] && t.parents == [None, None]
            && UniqueActive(t.rows) && ActiveFor(t.rows, "host", "action")
  {
    assert !ActiveFor(s.rows, "host", "action");
    var t := Apply(s, Enqueue("host", "action", 0, Readable(p), NoneActive));
    assert Active(t.rows[1]) && SameTarget(t.rows[1], "host", "action");
  }

  /** The first run of a table. */
  lemma FirstCreate(workers: nat, p: Payload)
    requires FreshQueue(p.queue)
    ensures var t := Apply(Init(workers), Enqueue("host", "action", 0, Readable(p), NoneActive));
            && t.rows == [NewRun("host", "action", 0, Readable(p))] && t.parents == [None]
            && |t.workers| == workers && forall w | 0 <= w < workers :: t.workers[w] == Idle
  {
  }

  lemma RejectedHistory(p: Payload)
    requires FreshQueue(p.queue) && p.queue.approval.required
    ensures var create := Enqueue("host", "action", 0, Readable(p), NoneActive);
            && Play(Init(1), [create]).rows == [NewRun("host", "action", 0, Readable(p))]
            && Play(Init(1), [create]).parents == [None]
            && Play(Init(1), [create] + [Reject(0, 0, None, None), create])
                 == Apply(Apply(Play(Init(1), [create]), Reject(0, 0, None, None)), create)
  {
    var create := Enqueue("host", "action", 0, Readable(p), NoneActive);
    PlayFew(Init(1), create, Reject(0, 0, None, None), create, create);
    FirstCreate(1, p);
  }

  /** What was rejected and queued anew comes back beside the new run. */
  lemma ComesBackBeside(s: System, p: Payload)
    requires Inv(s) && SeenForDecision(s, 0, p) && Undisturbed(s, 0, p) && s.parents == [None, None]
    requires UniqueActive(s.rows) && !Active(s.rows[0])
    requires ActiveFor(s.rows, s.rows[0].hostId, s.rows[0].actionId)
    ensures var t := LateApproval(s, 0, p, 0, None, None);
            Inv(t) && t.rows[0].state == Queued && !UniqueActive(t.rows)
  {
    LateApprovalKeepsInvExactlyWhen(s, 0, p, 0, None, None);
    LateApprovalKeepsUniqueExactlyWhen(s, 0, p, 0, None, None);
  }

  /** It happens: a run is queued for approval, one operator reads it, another rejects it, the planner
      queues the action anew; the first operator's approval brings the rejected run back beside it. */
  lemma RejectedRunComesBack(p: Payload)
    requires FreshQueue(p.queue) && p.queue.approval.required
    ensures var create := Enqueue("host", "action", 0, Readable(p), NoneActive);
            var s := Play(Init(1), [create] + [Reject(0, 0, None, None), create]);
            && DecisionRefusal(Play(Init(1), [create]), 0) == None
            && Play(Init(1), [create]).rows[0].params == Readable(p)
            && Inv(s) && UniqueActive(s.rows) && SeenForDecision(s, 0, p)
            && s.rows[0].state == Canceled && Undisturbed(s, 0, p) && s.parents == [None, None]
            && (var t := LateApproval(s, 0, p, 0, None, None);
                Inv(t) && t.rows[0].state == Queued && !UniqueActive(t.rows))
  {
    var create, reject := Enqueue("host", "action", 0, Readable(p), NoneActive), Reject(0, 0, None, None);
    var early := Play(Init(1), [create]);
    RejectedHistory(p);
    RejectedOnly(early, p);
    QueuedAnew(Apply(early, reject), p);
    ReachableInv(1, [create]);
    PlayConcat(Init(1), [create], [reject, create]);
    SeenStays(early, [reject, create], 0);
    ComesBackBeside(Play(Init(1), [create] + [reject, create]), p);
  }

  /** The worst case: the run has been claimed in the meantime, and any idle worker claims it too. */
  lemma LateApprovalMakesTwoOwners(workers: nat, steps: seq<Step>, more: seq<Step>, id: nat,
                                   w: nat, v: nat, now: int, actor: Option<string>,
                                   reason: Option<string>, claimNow: int)
    requires DecisionRefusal(Play(Init(workers), steps), id) == None
    requires var s := Play(Init(workers), steps + more);
             && id < |s.rows| && w < |s.workers| && v < |s.workers|
             && RunOf(s.workers[w]) == Some(id) && s.workers[v].Idle?
    ensures var seen := Play(Init(workers), steps).rows[id].params.payload;
            var s := LateApproval(Play(Init(workers), steps + more), id, seen, now, actor, reason);
            var t := Apply(Apply(s, Scan(v, id, claimNow)), TakeClaim(v, claimNow));
            && |t.workers| == |s.workers| && v != w
            && RunOf(t.workers[w]) == RunOf(t.workers[v]) == Some(id)
  {
    StatesAgreeWithMetadata(workers, steps, id);
    var seen := Play(Init(workers), steps).rows[id].params.payload;
    var s := LateApproval(Play(Init(workers), steps + more), id, seen, now, actor, reason);
    assert Claimable(s.rows[id], claimNow);
    var picked := Apply(s, Scan(v, id, claimNow));
    assert picked.rows == s.rows && picked.workers == s.workers[v := Picked(id)];
  }

  lemma ApprovedRunIsClaimed(s: System, p: Payload)
    requires s.rows == [NewRun("host", "action", 0, Readable(p))] && s.workers == [Idle, Idle]
    requires FreshQueue(p.queue) && p.queue.approval.required
    ensures var t := Apply(Apply(Apply(s, Approve(0, 0, None, None)), Scan(0, 0, 0)), TakeClaim(0, 0));
            |t.rows| == 1 && t.workers == [Claimed(0), Idle]
  {
    var approved := Apply(s, Approve(0, 0, None, None));
    assert approved.rows[0].state == Queued && Ready(approved.rows[0].params.payload.queue, 0);
    var picked := Apply(approved, Scan(0, 0, 0));
    assert picked.workers == [Picked(0), Idle] && picked.rows == approved.rows;
  }

  /** That case is reached: a run is queued for approval, one operator reads it, another approves it,
      a worker claims it. */
  lemma LateApprovalHappens(p: Payload)
    requires FreshQueue(p.queue) && p.queue.approval.required
    ensures var steps := [Enqueue("host", "action", 0, Readable(p), NoneActive)];
            var more := [Approve(0, 0, None, None), Scan(0, 0, 0), TakeClaim(0, 0)];
            var s := Play(Init(2), steps + more);
            && DecisionRefusal(Play(Init(2), steps), 0) == None
            && |s.rows| == 1 && |s.workers| == 2 && RunOf(s.workers[0]) == Some(0) && s.workers[1].Idle?
  {
    var create := Enqueue("host", "action", 0, Readable(p), NoneActive);
    var s := Play(Init(2), [create]);
    PlayFew(Init(2), create, Approve(0, 0, None, None), Scan(0, 0, 0), TakeClaim(0, 0));
    FirstCreate(2, p);
    assert s.workers == [Idle, Idle];
    ApprovedRunIsClaimed(s, p);
  }

  // ---------------------------------------------------------------- late creates and replays

  lemma AppendedActive(rows: seq<Run>, r: Run)
    requires UniqueActive(rows) && Active(r)
    ensures UniqueActive(rows + [r]) <==> !ActiveFor(rows, r.hostId, r.actionId)
  {
    var rows' := rows + [r];
    if ActiveFor(rows, r.hostId, r.actionId) {
      var i :| 0 <= i < |rows| && Active(rows[i]) && SameTarget(rows[i], r.hostId, r.actionId);
      assert Active(rows'[i]) && Active(rows'[|rows|]);
      assert SameTarget(rows'[i], rows'[|rows|].hostId, rows'[|rows|].actionId);
    }
  }

  /** However late, a create keeps the invariant; it leaves one active run per host and action exactly
      when none is active at the moment it is written. */
  lemma LateCreates(workers: nat, steps: seq<Step>, hostId: string, actionId: string, at: int, params: Stored)
    requires FreshParams(params)
    ensures var s := Play(Init(workers), steps);
            var t := Apply(s, Enqueue(hostId, actionId, at, params, Untested));
            && Inv(t) && t.rows == s.rows + [NewRun(hostId, actionId, at, params)]
            && (UniqueActive(s.rows) ==> (UniqueActive(t.rows) <==> !ActiveFor(s.rows, hostId, actionId)))
  {
    var s := Play(Init(workers), steps);
    ReachableInv(workers, steps);
    StepKeepsInv(s, Enqueue(hostId, actionId, at, params, Untested));
    if UniqueActive(s.rows) { AppendedActive(s.rows, NewRun(hostId, actionId, at, params)); }
  }

  /** A replay of a run as it was read earlier. */
  function LateReplay(s: System, id: nat, seen: Run, now: int): System
    requires id < |s.rows| && seen.params.Readable?
  {
    var s' := if seen.state == Failed && seen.params.payload.queue.dlq then WriteRow(s, id, Reviewed(seen, now)) else s;
    s'.(rows := s'.rows + [ReplayOf(seen, id, now)], parents := s'.parents + [Some(id)])
  }

  /** All that can happen to a run that is over: a dead letter is reviewed. */
  predicate Rests(r: Run, r': Run) {
    && !Active(r') && (r' != r ==> r.state == Failed && r'.state == Canceled)
    && SameTarget(r', r.hostId, r.actionId)
    && r.params.Readable? && r'.params.Readable?
    && (var q, q' := r.params.payload.queue, r'.params.payload.queue;
        && q'.attempts == q.attempts && q'.maxAttempts == q.maxAttempts && q'.replayOfRunId == q.replayOfRunId
        && q'.approval == q.approval && q'.canary == q.canary && q'.rollback == q.rollback)
  }

  /** Only a replay touches the row of a run that is over. */
  lemma FinishedIsLeftAlone(s: System, step: Step, id: nat)
    requires Inv(s) && id < |s.rows| && !Active(s.rows[id]) && !step.Replay?
    ensures id < |Apply(s, step).rows| && Apply(s, step).rows[id] == s.rows[id]
  {
    if Enabled(s, step) && (step.CheckClaim? || step.SettleRun?) {
      assert WorkerOk(s.rows, s.parents, s.log, s.workers[step.w]);
    }
  }

  lemma OneStepRests(s: System, step: Step, id: nat)
    requires Inv(s) && id < |s.rows| && !Active(s.rows[id]) && s.rows[id].params.Readable?
    ensures var t := Apply(s, step); id < |t.rows| && Rests(s.rows[id], t.rows[id])
  {
    if !step.Replay? { FinishedIsLeftAlone(s, step, id); }
  }

  lemma {:induction false} FinishedRests(s: System, more: seq<Step>, id: nat)
    requires Inv(s) && id < |s.rows| && !Active(s.rows[id]) && s.rows[id].params.Readable?
    ensures var t := Play(s, more); id < |t.rows| && Rests(s.rows[id], t.rows[id])
    decreases |more|
  {
    if more != [] {
      var earlier := more[..|more| - 1];
      FinishedRests(s, earlier, id);
      PlayKeepsInv(s, earlier);
      OneStepRests(Play(s, earlier), more[|more| - 1], id);
    }
  }

  /** Reviewing a dead letter a second time writes what fits its record. */
  lemma LateReview(s: System, id: nat, seen: Run, now: int)
    requires Inv(s) && id < |s.rows| && Rests(seen, s.rows[id])
    requires seen.state == Failed && MetaOk(Failed, seen.params.payload.queue)
    ensures Inv(WriteRow(s, id, Reviewed(seen, now)))
  {
    NotRunningNotOwned(s, id);
    assert RunOk(s.parents, s.log, id, s.rows[id], false);
    var q := ReviewedQueue(seen.params.payload.queue);
    assert MetaOk(Canceled, q);
    assert RecordOk(s.parents, s.log, id, q);
    DecisionStep(s, id, Reviewed(seen, now));
  }

  lemma LateReplayKeepsInv(s: System, id: nat, seen: Run, now: int)
    requires Inv(s) && id < |s.rows| && Rests(seen, s.rows[id]) && !Active(seen)
    requires MetaOk(seen.state, seen.params.payload.queue)
    ensures Inv(LateReplay(s, id, seen, now))
  {
    var dead := seen.state == Failed && seen.params.payload.queue.dlq;
    var s' := if dead then WriteRow(s, id, Reviewed(seen, now)) else s;
    if dead { LateReview(s, id, seen, now); }
    NotRunningNotOwned(s, id);
    assert RunOk(s.parents, s.log, id, s.rows[id], false);
    AppendStep(s', ReplayOf(seen, id, now), Some(id));
  }

  /** Why a replay is refused when the active runs are counted later than its row is read. */
  function LateReplayRefusal(s: System, later: System, id: nat): Option<Refusal> {
    if id >= |s.rows| then Some(NotFound)
    else if Active(s.rows[id]) then Some(StillActive)
    else if s.rows[id].params.Unreadable? then Some(NotReplayable)
    else if ActiveFor(later.rows, s.rows[id].hostId, s.rows[id].actionId) then Some(ActiveRunExists)
    else None
  }

  /** A replay that is written at once is the step of the protocol. */
  lemma PromptReplay(s: System, id: nat, now: int)
    ensures LateReplayRefusal(s, s, id) == ReplayRefusal(s, id)
    ensures ReplayRefusal(s, id) == None ==> LateReplay(s, id, s.rows[id], now) == Apply(s, Replay(id, now))
  {
  }

  /** A replay is possible exactly for a readable run that is over and whose target has no active run by
      then; otherwise it is refused for the first of these reasons that is true. */
  lemma LateReplayIsRefusedExactly(s: System, later: System, id: nat)
    ensures var refusal := LateReplayRefusal(s, later, id);
            && (refusal == Some(NotFound) <==> id >= |s.rows|)
            && (id < |s.rows| ==>
                  var r := s.rows[id];
                  var over := r.state != Queued && r.state != Running;
                  && (refusal == Some(StillActive) <==> !over)
                  && (refusal == Some(NotReplayable) <==> over && r.params.Unreadable?)
                  && (refusal == Some(ActiveRunExists) <==>
                        over && r.params.Readable? && exists i | 0 <= i < |later.rows| ::
                          && (later.rows[i].state == Queued || later.rows[i].state == Running)
                          && later.rows[i].hostId == r.hostId && later.rows[i].actionId == r.actionId)
                  && (refusal == None || refusal == Some(StillActive) || refusal == Some(NotReplayable)
                      || refusal == Some(ActiveRunExists)))
  {
    if id < |s.rows| {
      var r := s.rows[id];
      if ActiveFor(later.rows, r.hostId, r.actionId) {
        var i :| 0 <= i < |later.rows| && Active(later.rows[i]) && SameTarget(later.rows[i], r.hostId, r.actionId);
        assert later.rows[i].state == Queued || later.rows[i].state == Running;
      }
      forall i | 0 <= i < |later.rows| && (later.rows[i].state == Queued || later.rows[i].state == Running)
                 && later.rows[i].hostId == r.hostId && later.rows[i].actionId == r.actionId
        ensures ActiveFor(later.rows, r.hostId, r.actionId)
      {
        assert Active(later.rows[i]) && SameTarget(later.rows[i], r.hostId, r.actionId);
      }
    }
  }

  /** The run is over, and its payload can be read. */
  predicate Replayable(s: System, id: nat) {
    id < |s.rows| && !Active(s.rows[id]) && s.rows[id].params.Readable?
  }

  lemma LateReplayFrom(early: System, gap: seq<Step>, id: nat, now: int)
    requires Inv(early) && Replayable(early, id)
    ensures var s := Play(early, gap);
            id < |s.rows| && Rests(early.rows[id], s.rows[id]) && Inv(LateReplay(s, id, early.rows[id], now))
  {
    PlayKeepsInv(early, gap);
    FinishedRests(early, gap, id);
    NotRunningNotOwned(early, id);
    assert RunOk(early.parents, early.log, id, early.rows[id], false);
    LateReplayKeepsInv(Play(early, gap), id, early.rows[id], now);
  }

  /** However late, a replay keeps the invariant, also when the run has been replayed in between; it
      leaves one active run per host and action exactly when none is active at the moment it is
      written. */
  lemma LateReplays(workers: nat, steps: seq<Step>, more: seq<Step>, id: nat, now: int)
    requires Replayable(Play(Init(workers), steps), id)
    ensures var seen := Play(Init(workers), steps).rows[id];
            var s := Play(Init(workers), steps + more);
            && id < |s.rows|
            && (var t := LateReplay(s, id, seen, now);
                && Inv(t)
                && (UniqueActive(s.rows) ==>
                      (UniqueActive(t.rows) <==> !ActiveFor(s.rows, seen.hostId, seen.actionId))))
  {
    var early := Play(Init(workers), steps);
    var s := Play(Init(workers), steps + more);
    ReachableInv(workers, steps);
    PlayConcat(Init(workers), steps, more);
    LateReplayFrom(early, more, id, now);
    if UniqueActive(s.rows) { ReplayedActive(s, id, early.rows[id], now); }
  }

  lemma ReplayedActive(s: System, id: nat, seen: Run, now: int)
    requires id < |s.rows| && Rests(seen, s.rows[id]) && UniqueActive(s.rows)
    ensures UniqueActive(LateReplay(s, id, seen, now).rows) <==> !ActiveFor(s.rows, seen.hostId, seen.actionId)
  {
    var reviewed := if seen.state == Failed && seen.params.payload.queue.dlq
                    then WriteRow(s, id, Reviewed(seen, now)).rows else s.rows;
    SameActive(s.rows, reviewed, id, seen.hostId, seen.actionId);
    AppendedActive(reviewed, ReplayOf(seen, id, now));
  }

  lemma SameActive(rows: seq<Run>, rows': seq<Run>, id: nat, h: string, a: string)
    requires id < |rows| == |rows'| && !Active(rows[id]) && !Active(rows'[id]) && UniqueActive(rows)
    requires forall i | 0 <= i < |rows| && i != id :: rows'[i] == rows[i]
    ensures UniqueActive(rows') && (ActiveFor(rows', h, a) <==> ActiveFor(rows, h, a))
  {
    if ActiveFor(rows, h, a) {
      var i :| 0 <= i < |rows| && Active(rows[i]) && SameTarget(rows[i], h, a);
      assert rows'[i] == rows[i];
    }
  }
}
