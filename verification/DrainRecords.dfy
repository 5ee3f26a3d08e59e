/** What the single writes of the queue leave in a row (src/lib/remediate/queue.ts): which check puts a
    claimed run where, what an operator's decision records, and when a row started and finished. */
module DrainRecords {
  import opened Common
  import opened QueueRuntime
  import opened DrainProtocol
  import opened DrainInvariant
  import opened DrainSafety
  import opened DrainTheorems
  import Guard

  // ---------------------------------------------------------------- the checks of a claimed run

  /** The instant lies outside the run's time to live. */
  predicate Expired(c: Claim, ttlNow: int) {
    ttlNow < c.run.requestedAt || ttlNow - c.run.requestedAt > c.policy.queueTtlMinutes * 60 * 1000
  }

  /** Something keeps the run waiting: a dead letter, a missing approval, or a later due time. */
  predicate MustWait(q: QueueMeta, now: int) {
    || q.dlq
    || (q.approval.required && q.approval.status != Approved)
    || (q.nextAttemptAt.Some? && now < q.nextAttemptAt.value)
  }

  /** Where the checks leave a claimed run: canceled exactly when its host is disabled or its time is
      over, otherwise failed exactly when it is unreadable or due with commands the guard blocks,
      otherwise back in the queue, as it was, exactly when it must wait, and otherwise running. */
  lemma ChecksEndExactly(c: Claim, now: int, ttlNow: int)
    requires c.run.state == Running && Admit(c, now, ttlNow).Release?
    ensures var r := c.run;
            var r' := ApplyUpdate(r, Admit(c, now, ttlNow).update);
            var over := !c.hostEnabled || Expired(c, ttlNow);
            && r' == r.(state := r'.state, startedAt := r'.startedAt, finishedAt := r'.finishedAt, params := r'.params)
            && (r'.state == Canceled || r'.state == Failed || r'.state == Queued)
            && (r'.state == Canceled <==> over)
            && (r'.state == Queued <==> !over && r.params.Readable? && MustWait(r.params.payload.queue, now))
            && (if r'.state == Queued then r'.startedAt == r'.finishedAt == None
                else r'.startedAt == r.startedAt && r'.finishedAt == Some(now))
            && (r'.state == Failed && r.params.Readable? ==>
                  && !Guard.Accepted(r.params.payload.commands, c.policy.guard)
                  && BlockRecorded(r.params, r'.params, now))
            && (r'.state != Failed || r.params.Unreadable? ==> r'.params == r.params)
  {
    if c.run.params.Readable? { Guard.GuardIsExact(c.run.params.payload.commands, c.policy.guard); }
  }

  /** The block is recorded, without an attempt, and nothing else about the run changes. */
  predicate BlockRecorded(params: Stored, params': Stored, now: int)
    requires params.Readable?
  {
    && params'.Readable?
    && (var p, p' := params.payload, params'.payload;
        && p' == p.(queue := p'.queue)
        && p'.queue == p.queue.(dlq := true, dlqReason := Some("policy_blocked"), nextAttemptAt := None,
                                lastAttemptAt := Some(now), lastError := p'.queue.lastError)
        && p'.queue.lastError.Some?)
  }

  // ---------------------------------------------------------------- decisions

  /** The text of a decision: what the operator wrote, without the white space around it and cut at 600
      characters, or the fallback when there is nothing in it. */
  ghost predicate ReasonGiven(reason: Option<string>, fallback: string, text: string) {
    if reason.None? || AllSpace(reason.value) then text == fallback
    else
      var written := Trim(reason.value);
      if |written| <= 600 then text == written else |text| > 600 && text[..600] == written[..600]
  }

  lemma ReasonIsGiven(reason: Option<string>, fallback: string)
    requires Trimmed(fallback) && |fallback| <= 600 && fallback != ""
    ensures ReasonGiven(reason, fallback, DecisionReason(reason, fallback))
  {
    if reason.Some? {
      TrimmedAway(reason.value);
      var cut := TruncateTellsWhatItCut(Trim(reason.value), 600);
    }
    assert Trim("") == "";
  }

  /** Who decided, when and why is on record, and nothing else of the approval changes. */
  ghost predicate DecisionRecorded(a: ApprovalMeta, a': ApprovalMeta, status: ApprovalStatus, now: int,
                                   actor: Option<string>, reason: Option<string>, fallback: string) {
    && a'.status == status && a'.approvedAt == Some(now) && a'.approvedByUserId == actor
    && a'.reason.Some? && ReasonGiven(reason, fallback, a'.reason.value)
    && a'.required == a.required && a'.requestedAt == a.requestedAt && a'.requestedByUserId == a.requestedByUserId
  }

  /** The row is still for the same request, and its payload differs in what a decision sets only. */
  predicate OnlyDecided(r: Run, r': Run) {
    && r'.hostId == r.hostId && r'.actionId == r.actionId && r'.requestedAt == r.requestedAt
    && r.params.Readable? && r'.params.Readable?
    && (var p, p' := r.params.payload, r'.params.payload;
        && p' == p.(queue := p'.queue)
        && p'.queue == p.queue.(approval := p'.queue.approval, nextAttemptAt := None, lastError := p'.queue.lastError))
  }

  ghost predicate Approves(r: Run, r': Run, now: int, actor: Option<string>, reason: Option<string>) {
    && OnlyDecided(r, r')
    && r'.state == Queued && r'.startedAt == None && r'.finishedAt == None
    && (var q, q' := r.params.payload.queue, r'.params.payload.queue;
        DecisionRecorded(q.approval, q'.approval, Approved, now, actor, reason, "approved") && q'.lastError == None)
    && forall at :: Claimable(r', at)
  }

  ghost predicate Rejects(r: Run, r': Run, now: int, actor: Option<string>, reason: Option<string>) {
    && OnlyDecided(r, r')
    && r'.state == Canceled && r'.startedAt == None && r'.finishedAt == Some(now)
    && (var q, q' := r.params.payload.queue, r'.params.payload.queue;
        && DecisionRecorded(q.approval, q'.approval, Rejected, now, actor, reason, "rejected")
        && q'.lastError == q'.approval.reason)
  }

  /** The step writes this one row. */
  predicate OnlyRow(s: System, t: System, id: nat) {
    id < |s.rows| == |t.rows| && t.rows == s.rows[id := t.rows[id]]
  }

  /** An approval releases exactly the run it names: it is queued, and every worker may claim it from
      then on. A rejection cancels it, with the reason as its error. Both are possible exactly for
      queued, readable runs that require an approval. */
  lemma DecisionIsRecorded(workers: nat, steps: seq<Step>, id: nat, now: int, actor: Option<string>,
                           reason: Option<string>)
    ensures var s := Play(Init(workers), steps);
            && (DecisionRefusal(s, id) == None <==>
                  && id < |s.rows| && s.rows[id].state == Queued && s.rows[id].params.Readable?
                  && s.rows[id].params.payload.queue.approval.required)
            && (DecisionRefusal(s, id) == None ==>
                  var approved := Apply(s, Approve(id, now, actor, reason));
                  var rejected := Apply(s, Reject(id, now, actor, reason));
                  && OnlyRow(s, approved, id) && Approves(s.rows[id], approved.rows[id], now, actor, reason)
                  && OnlyRow(s, rejected, id) && Rejects(s.rows[id], rejected.rows[id], now, actor, reason))
  {
    var s := Play(Init(workers), steps);
    if DecisionRefusal(s, id) == None {
      QueuedIsNoDeadLetter(workers, steps, id);
      ApprovalIsWritten(s, id, now, actor, reason);
      RejectionIsWritten(s, id, now, actor, reason);
    }
  }

  lemma QueuedIsNoDeadLetter(workers: nat, steps: seq<Step>, id: nat)
    requires DecisionRefusal(Play(Init(workers), steps), id) == None
    ensures !Play(Init(workers), steps).rows[id].params.payload.queue.dlq
  {
    StatesAgreeWithMetadata(workers, steps, id);
  }

  lemma ApprovedRow(r: Run, now: int, actor: Option<string>, reason: Option<string>)
    requires r.params.Readable? && !r.params.payload.queue.dlq
    ensures var p := r.params.payload;
            var q := ApprovedQueue(p.queue, now, actor, reason);
            Approves(r, ApplyUpdate(r, Update(Queued, Some(None), Some(None), Some(Readable(p.(queue := q))))),
                     now, actor, reason)
  {
    ReasonIsGiven(reason, "approved");
  }

  lemma ApprovalIsWritten(s: System, id: nat, now: int, actor: Option<string>, reason: Option<string>)
    requires DecisionRefusal(s, id) == None && !s.rows[id].params.payload.queue.dlq
    ensures var t := Apply(s, Approve(id, now, actor, reason));
            OnlyRow(s, t, id) && Approves(s.rows[id], t.rows[id], now, actor, reason)
  {
    ApprovedRow(s.rows[id], now, actor, reason);
  }

  lemma RejectedRow(r: Run, now: int, actor: Option<string>, reason: Option<string>)
    requires r.params.Readable?
    ensures var p := r.params.payload;
            var q := RejectedQueue(p.queue, now, actor, reason);
            Rejects(r, ApplyUpdate(r, Update(Canceled, Some(None), Some(Some(now)), Some(Readable(p.(queue := q))))),
                    now, actor, reason)
  {
    ReasonIsGiven(reason, "rejected");
  }

  lemma RejectionIsWritten(s: System, id: nat, now: int, actor: Option<string>, reason: Option<string>)
    requires DecisionRefusal(s, id) == None
    ensures var t := Apply(s, Reject(id, now, actor, reason));
            OnlyRow(s, t, id) && Rejects(s.rows[id], t.rows[id], now, actor, reason)
  {
    RejectedRow(s.rows[id], now, actor, reason);
  }

  // ---------------------------------------------------------------- when a run started and finished

  /** A queued run has neither started nor finished, a running one has started, one that succeeded or
      failed has done both, a canceled one has finished. */
  predicate TimesAgree(r: Run) {
    match r.state
    case Queued => r.startedAt == None && r.finishedAt == None
    case Running => r.startedAt.Some? && r.finishedAt == None
    case Succeeded => r.startedAt.Some? && r.finishedAt.Some?
    case Failed => r.startedAt.Some? && r.finishedAt.Some?
    case Canceled => r.finishedAt.Some?
  }

  lemma CheckKeepsTimes(s: System, step: Step, id: nat)
    requires Inv(s) && Enabled(s, step) && step.CheckClaim? && id < |s.rows| && TimesAgree(s.rows[id])
    ensures |Apply(s, step).rows| == |s.rows| && TimesAgree(Apply(s, step).rows[id])
  {
    assert WorkerOk(s.rows, s.parents, s.log, s.workers[step.w]);
  }

  lemma SettleKeepsTimes(s: System, step: Step, id: nat)
    requires Inv(s) && Enabled(s, step) && step.SettleRun? && id < |s.rows| && TimesAgree(s.rows[id])
    ensures |Apply(s, step).rows| == |s.rows| && TimesAgree(Apply(s, step).rows[id])
  {
    assert WorkerOk(s.rows, s.parents, s.log, s.workers[step.w]);
  }

  lemma ReplayKeepsTimes(s: System, step: Step, id: nat)
    requires Enabled(s, step) && step.Replay? && TimesAgree(s.rows[step.id])
    requires id < |Apply(s, step).rows| && (id < |s.rows| ==> TimesAgree(s.rows[id]))
    ensures TimesAgree(Apply(s, step).rows[id])
  {
  }

  lemma OthersKeepTimes(s: System, step: Step, id: nat)
    requires !(step.CheckClaim? || step.SettleRun? || step.Replay?)
    requires id < |Apply(s, step).rows| && (id < |s.rows| ==> TimesAgree(s.rows[id]))
    ensures TimesAgree(Apply(s, step).rows[id])
  {
    RowCount(s, step);
  }

  /** In every reachable state the rows' start and finish times agree with their states. */
  lemma {:induction false} TimesAgreeWithStates(workers: nat, steps: seq<Step>, id: nat)
    requires id < |Play(Init(workers), steps).rows|
    ensures TimesAgree(Play(Init(workers), steps).rows[id])
    decreases |steps|
  {
    if steps != [] {
      var before, step := steps[..|steps| - 1], steps[|steps| - 1];
      var s := Play(Init(workers), before);
      ReachableInv(workers, before);
      if id < |s.rows| { TimesAgreeWithStates(workers, before, id); }
      if !Enabled(s, step) {
      } else if step.CheckClaim? {
        RowCount(s, step);
        CheckKeepsTimes(s, step, id);
      } else if step.SettleRun? {
        RowCount(s, step);
        SettleKeepsTimes(s, step, id);
      } else if step.Replay? {
        TimesAgreeWithStates(workers, before, step.id);
        ReplayKeepsTimes(s, step, id);
      } else {
        OthersKeepTimes(s, step, id);
      }
    }
  }
}
