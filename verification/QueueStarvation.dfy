/** What the claim does not see (src/lib/remediate/queue.ts:224-254): it looks at the 80
    oldest queued ones only, so runs that wait for an approval hide everything requested after them,
    and nothing but a decision on them ever ends that. */
module QueueStarvation {
  import opened Common
  import opened QueueRuntime
  import opened DrainProtocol
  import opened DrainInvariant
  import opened DrainSafety
  import opened DrainTheorems
  import opened QueueOrder

  const CANDIDATES := 80

  /** A run with 80 queued runs in front of it is not picked. */
  lemma HiddenIsNotPicked(rows: seq<Run>, now: int, i: nat)
    requires i < |rows| && |InFront(rows, i)| >= CANDIDATES
    ensures Pick(rows, now) != Some(i)
  {
    PickedExactlyWhen(rows, now, i);
  }

  // ---------------------------------------------------------------- runs that wait for an approval

  /** The run needs no approval, or has it. */
  predicate Vetted(r: Run) {
    r.params.Readable? && r.params.payload.queue.approval.required ==>
      r.params.payload.queue.approval.status == Approved
  }

  predicate IsPicked(workers: seq<Worker>, id: nat) {
    exists w | 0 <= w < |workers| :: workers[w] == Picked(id)
  }

  /** Nobody works on a run that waits for an approval, or is about to. */
  predicate OnlyVetted(s: System, id: nat)
    requires id < |s.rows|
  {
    s.rows[id].state == Running || (s.rows[id].state == Queued && IsPicked(s.workers, id)) ==> Vetted(s.rows[id])
  }

  lemma FewMorePicked(s: System, step: Step, id: nat)
    requires IsPicked(Apply(s, step).workers, id)
    ensures IsPicked(s.workers, id) || (step.Scan? && step.id == id && Enabled(s, step))
  {
    var t := Apply(s, step);
    var w :| 0 <= w < |t.workers| && t.workers[w] == Picked(id);
    if s.workers[w] != Picked(id) {
      assert Enabled(s, step);
    }
  }

  /** Steps that move no row. */
  predicate Quiet(step: Step) {
    step.Scan? || step.Reread? || step.RunCommands? || step.RunCanary? || step.RunRollback?
  }

  /** Only a claim of a queued run makes it run, and only the worker that runs it queues it again. */
  lemma StateMoves(s: System, step: Step, id: nat)
    requires Inv(s) && id < |s.rows|
    ensures var r, r' := s.rows[id], Apply(s, step).rows[id];
            && (r'.state == Running ==> r.state == Running || (r.state == Queued && IsPicked(s.workers, id)))
            && (r'.state == Queued ==> r.state == Queued || r.state == Running)
            && (r.state == Queued && r'.state == Queued && r' != r ==> step.Approve? && step.id == id)
            && (r.state == Queued && r'.state != Queued && r'.state != Running ==> step.Reject? && step.id == id)
  {
    RowCount(s, step);
    if !Enabled(s, step) {
    } else if step.CheckClaim? || step.SettleRun? {
      assert WorkerOk(s.rows, s.parents, s.log, s.workers[step.w]);
    } else if step.TakeClaim? {
      assert s.workers[step.w] == Picked(s.workers[step.w].id);
    }
  }

  lemma StepKeepsVetted(s: System, step: Step, id: nat)
    requires Inv(s) && id < |s.rows| && OnlyVetted(s, id)
    ensures id < |Apply(s, step).rows| && OnlyVetted(Apply(s, step), id)
  {
    var t := Apply(s, step);
    StepMoves(s, step, id);
    StateMoves(s, step, id);
    if IsPicked(t.workers, id) { FewMorePicked(s, step, id); }
  }

  lemma PickedExists(s: System, id: nat)
    requires Inv(s) && IsPicked(s.workers, id)
    ensures id < |s.rows|
  {
    var w :| 0 <= w < |s.workers| && s.workers[w] == Picked(id);
    assert WorkerOk(s.rows, s.parents, s.log, s.workers[w]);
  }

  lemma NewIsVetted(s: System, step: Step, id: nat)
    requires Inv(s) && |s.rows| <= id < |Apply(s, step).rows|
    ensures OnlyVetted(Apply(s, step), id)
  {
    RowCount(s, step);
    assert Apply(s, step).workers == s.workers;
    if IsPicked(s.workers, id) { PickedExists(s, id); }
  }

  /** In every reachable state, a run that waits for an approval is neither claimed nor picked to be. */
  lemma {:induction false} WaitingRunsAreLeftAlone(workers: nat, steps: seq<Step>, id: nat)
    requires id < |Play(Init(workers), steps).rows|
    ensures OnlyVetted(Play(Init(workers), steps), id)
    decreases |steps|
  {
    if steps != [] {
      var before, step := steps[..|steps| - 1], steps[|steps| - 1];
      var s := Play(Init(workers), before);
      ReachableInv(workers, before);
      if id < |s.rows| {
        WaitingRunsAreLeftAlone(workers, before, id);
        StepKeepsVetted(s, step, id);
      } else {
        NewIsVetted(s, step, id);
      }
    }
  }

  // ---------------------------------------------------------------- what is not decided stays

  /** The run waits for an approval, and no worker has an eye on it. */
  predicate Waits(s: System, id: nat) {
    id < |s.rows| && s.rows[id].state == Queued && !Vetted(s.rows[id]) && !IsPicked(s.workers, id)
  }

  predicate Decides(step: Step, id: nat) { (step.Approve? || step.Reject?) && step.id == id }

  lemma StepKeepsWaiting(s: System, step: Step, id: nat)
    requires Inv(s) && Waits(s, id) && !Decides(step, id)
    ensures Waits(Apply(s, step), id) && Apply(s, step).rows[id] == s.rows[id]
  {
    StepMoves(s, step, id);
    StateMoves(s, step, id);
    if IsPicked(Apply(s, step).workers, id) { FewMorePicked(s, step, id); }
  }

  ghost predicate Undecided(steps: seq<Step>, ids: set<nat>) {
    forall n, id | 0 <= n < |steps| && id in ids :: !Decides(steps[n], id)
  }

  /** However long it takes and whatever the clocks say, a run that waits for an approval stays as it
      is until it is approved or rejected: nothing ever tests its time to live. */
  lemma {:induction false} WaitingRunsStay(s: System, more: seq<Step>, ids: set<nat>, id: nat)
    requires Inv(s) && Waits(s, id) && id in ids && Undecided(more, ids)
    ensures var t := Play(s, more); Waits(t, id) && t.rows[id] == s.rows[id]
    decreases |more|
  {
    if more != [] {
      var before, step := more[..|more| - 1], more[|more| - 1];
      assert forall n | 0 <= n < |before| :: before[n] == more[n];
      WaitingRunsStay(s, before, ids, id);
      PlayKeepsInv(s, before);
      StepKeepsWaiting(Play(s, before), step, id);
    }
  }

  /** These runs wait in s, and were all requested before the given instant. */
  ghost predicate Block(s: System, blockers: set<nat>, at: int) {
    forall b | b in blockers :: Waits(s, b) && s.rows[b].requestedAt < at
  }

  lemma BlockersAreInFront(t: System, blockers: set<nat>, i: nat)
    requires i < |t.rows| && Block(t, blockers, t.rows[i].requestedAt)
    ensures blockers <= InFront(t.rows, i) && |blockers| <= |InFront(t.rows, i)|
  {
    assert blockers <= InFront(t.rows, i);
    SmallerSet(blockers, InFront(t.rows, i));
  }

  lemma SmallerSet(a: set<nat>, b: set<nat>)
    requires a <= b
    ensures |a| <= |b|
  {
    assert b == a + (b - a);
  }

  lemma BlockersStay(s: System, more: seq<Step>, blockers: set<nat>, at: int)
    requires Inv(s) && Block(s, blockers, at) && Undecided(more, blockers)
    ensures Block(Play(s, more), blockers, at)
  {
    forall b | b in blockers ensures Waits(Play(s, more), b) && Play(s, more).rows[b].requestedAt < at {
      WaitingRunsStay(s, more, blockers, b);
    }
  }

  /** Once 80 queued runs wait for an approval, no claim ever takes a run requested after them, nor
      any run at all when nothing older is ready, until one of them is approved or rejected. */
  lemma WaitingRunsHideTheRest(workers: nat, steps: seq<Step>, more: seq<Step>, blockers: set<nat>,
                               at: int, now: int)
    requires |blockers| >= CANDIDATES && Undecided(more, blockers)
    requires var s := Play(Init(workers), steps);
             forall b | b in blockers :: && b < |s.rows| && s.rows[b].state == Queued && !Vetted(s.rows[b])
                                         && s.rows[b].requestedAt < at
    ensures var s := Play(Init(workers), steps);
            var t := Play(s, more);
            && (forall b | b in blockers :: b < |t.rows| && t.rows[b] == s.rows[b])
            && (forall i: nat | i < |t.rows| && t.rows[i].requestedAt >= at ::
                  Pick(t.rows, now) != Some(i))
            && ((forall i: nat | i < |t.rows| && t.rows[i].requestedAt < at :: !MayStart(t.rows[i], now)) ==>
                  Pick(t.rows, now) == None)
  {
    var s := Play(Init(workers), steps);
    var t := Play(s, more);
    ReachableInv(workers, steps);
    forall b | b in blockers ensures Waits(s, b) && b < |t.rows| && t.rows[b] == s.rows[b] {
      WaitingRunsAreLeftAlone(workers, steps, b);
      WaitingRunsStay(s, more, blockers, b);
    }
    BlockersStay(s, more, blockers, at);
    forall i: nat | i < |t.rows| && t.rows[i].requestedAt >= at
      ensures |InFront(t.rows, i)| >= CANDIDATES && Pick(t.rows, now) != Some(i)
    {
      BlockersAreInFront(t, blockers, i);
      HiddenIsNotPicked(t.rows, now, i);
    }
    NothingIsPickedExactlyWhen(t.rows, now);
  }

  // ---------------------------------------------------------------- what is hidden never runs

  /** Workers pick the run that the candidate loop gives them. */
  ghost predicate ScansArePicks(s: System, steps: seq<Step>) {
    forall n | 0 <= n < |steps| && steps[n].Scan? ::
      Pick(Play(s, steps[..n]).rows, steps[n].now) == Some(steps[n].id)
  }

  /** The run neither runs nor is about to. */
  predicate Parked(s: System, id: nat) {
    id < |s.rows| && s.rows[id].state != Running && (s.rows[id].state == Queued ==> !IsPicked(s.workers, id))
  }

  lemma StepKeepsParked(s: System, step: Step, id: nat)
    requires Inv(s) && Parked(s, id) && !(step.Scan? && step.id == id)
    ensures var t := Apply(s, step);
            && Parked(t, id) && Executions(t.log, id) == Executions(s.log, id)
            && t.rows[id].requestedAt == s.rows[id].requestedAt
  {
    StepMoves(s, step, id);
    StateMoves(s, step, id);
    if IsPicked(Apply(s, step).workers, id) { FewMorePicked(s, step, id); }
    if step.RunCommands? && Enabled(s, step) {
      assert WorkerOk(s.rows, s.parents, s.log, s.workers[step.w]);
    }
  }

  /** A run behind 80 waiting ones is never executed, however many workers drain the queue however
      often, as long as none of the 80 is decided. */
  lemma {:induction false} HiddenRunsNeverRun(s: System, more: seq<Step>, blockers: set<nat>, i: nat)
    requires Inv(s) && Parked(s, i) && Block(s, blockers, s.rows[i].requestedAt)
    requires |blockers| >= CANDIDATES && Undecided(more, blockers) && ScansArePicks(s, more)
    ensures var t := Play(s, more);
            Inv(t) && Parked(t, i) && Executions(t.log, i) == Executions(s.log, i)
            && t.rows[i].requestedAt == s.rows[i].requestedAt
    decreases |more|
  {
    if more != [] {
      var before, step := more[..|more| - 1], more[|more| - 1];
      var m := Play(s, before);
      assert forall n | 0 <= n < |before| :: before[n] == more[n] && before[..n] == more[..n];
      HiddenRunsNeverRun(s, before, blockers, i);
      BlockersStay(s, before, blockers, s.rows[i].requestedAt);
      BlockersAreInFront(m, blockers, i);
      if step.Scan? {
        assert Pick(m.rows, step.now) == Some(step.id);
        HiddenIsNotPicked(m.rows, step.now, i);
      }
      StepKeepsParked(m, step, i);
      StepKeepsInv(m, step);
    }
  }

  // ---------------------------------------------------------------- it can happen

  /** As many hosts as one likes. */
  function HostName(k: nat): string { seq(k, _ => 'h') }

  function Request(k: nat, p: Payload): Step { Enqueue(HostName(k), "harden", k, Readable(p), NoneActive) }

  function Requests(n: nat, p: Payload): seq<Step> { seq(n, (k: nat) => Request(k, p)) }

  function RequestedRun(k: nat, p: Payload): Run { NewRun(HostName(k), "harden", k, Readable(p)) }

  function RequestedRuns(n: nat, p: Payload): seq<Run> { seq(n, (k: nat) => RequestedRun(k, p)) }

  lemma OneMoreRequest(s: System, n: nat, p: Payload, last: Payload)
    requires s.rows == RequestedRuns(n, p) && FreshQueue(last.queue)
    ensures Apply(s, Request(n, last)).rows == s.rows + [RequestedRun(n, last)]
  {
    forall k: nat | k < n ensures s.rows[k].hostId != HostName(n) {
      assert s.rows[k].hostId == HostName(k) && |HostName(k)| != |HostName(n)|;
    }
  }

  lemma {:induction false} RequestsBuild(n: nat, p: Payload)
    requires FreshQueue(p.queue)
    ensures Play(Init(1), Requests(n, p)).rows == RequestedRuns(n, p)
  {
    if n > 0 {
      RequestsBuild(n - 1, p);
      assert Requests(n, p)[..n - 1] == Requests(n - 1, p);
      OneMoreRequest(Play(Init(1), Requests(n - 1, p)), n - 1, p, p);
    }
  }

  ghost function Below(n: nat): (ids: set<nat>)
    ensures |ids| == n && forall id | id in ids :: id < n
  {
    if n == 0 then {} else Below(n - 1) + {n - 1}
  }

  /** n requests, and one more that they are all in front of. */
  lemma RequestsLineUp(n: nat, p: Payload, last: Payload)
    requires FreshQueue(p.queue) && FreshQueue(last.queue)
    ensures var rows := Play(Init(1), Requests(n, p) + [Request(n, last)]).rows;
            && |rows| == n + 1 && rows[n] == RequestedRun(n, last)
            && (forall j: nat | j < n :: rows[j] == RequestedRun(j, p))
            && |InFront(rows, n)| >= n
  {
    RequestsBuild(n, p);
    OneMoreRequest(Play(Init(1), Requests(n, p)), n, p, last);
    PlayOne(Init(1), Requests(n, p), Request(n, last));
    InOrderOfRequest(Play(Init(1), Requests(n, p) + [Request(n, last)]).rows, n);
  }

  lemma InOrderOfRequest(rows: seq<Run>, n: nat)
    requires n < |rows| && forall j: nat | j <= n :: rows[j].requestedAt == j && rows[j].state == Queued
    ensures |InFront(rows, n)| >= n
  {
    assert Below(n) <= InFront(rows, n);
    SmallerSet(Below(n), InFront(rows, n));
  }

  /** 80 requests that need an approval, and one that does not: nothing is picked. */
  lemma StarvationHappens(waiting: Payload, ready: Payload, now: int)
    requires FreshQueue(waiting.queue) && waiting.queue.approval.required
    requires FreshQueue(ready.queue) && !ready.queue.approval.required
    ensures var rows := Play(Init(1), Requests(CANDIDATES, waiting) + [Request(CANDIDATES, ready)]).rows;
            && |rows| == CANDIDATES + 1 && MayStart(rows[CANDIDATES], now)
            && Pick(rows, now) == None
  {
    var rows := Play(Init(1), Requests(CANDIDATES, waiting) + [Request(CANDIDATES, ready)]).rows;
    RequestsLineUp(CANDIDATES, waiting, ready);
    NothingIsPickedExactlyWhen(rows, now);
  }
}
