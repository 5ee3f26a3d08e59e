/** What a worker that dies after its claim leaves behind (src/lib/remediate/queue.ts,
    src/lib/remediate/autonomous-runtime.ts, src/app/api/remediate/route.ts): a worker that takes no
    more steps. */
module AbandonedRuns {
  import opened Common
  import opened QueueRuntime
  import opened DrainProtocol
  import opened DrainInvariant
  import opened DrainSafety
  import opened AutonomousPlanner
  import ManualRoute
  import PlannerCaps
  import RemediationQueue

  /** The worker has claimed the run. */
  predicate Claims(s: System, w: nat, id: nat) {
    w < |s.workers| && RunOf(s.workers[w]) == Some(id)
  }

  /** The row of an abandoned run stays running as it is, whatever all others do: its time to live is
      never tested, nobody can take it over, and no operator can decide it or replay it. */
  lemma AbandonedRunStays(workers: nat, steps: seq<Step>, more: seq<Step>, w: nat, id: nat)
    requires Claims(Play(Init(workers), steps), w, id) && RemediationQueue.OthersOnly(more, w)
    ensures var s, t := Play(Init(workers), steps), Play(Init(workers), steps + more);
            && Claims(t, w, id) && id < |s.rows| && id < |t.rows| && t.rows[id] == s.rows[id]
            && t.rows[id].state == Running
            && DecisionRefusal(t, id) == Some(NotQueued) && ReplayRefusal(t, id) == Some(StillActive)
  {
    var s := Play(Init(workers), steps);
    ReachableInv(workers, steps);
    PlayConcat(Init(workers), steps, more);
    RemediationQueue.OthersSpareOwner(s, more, w);
    assert WorkerOk(s.rows, s.parents, s.log, s.workers[w]);
  }

  /** So its action is blocked on its host for good: no create that looks for active or running runs
      happens, no run of the target is replayed, the planner skips the action, the manual route refuses
      it. */
  lemma AbandonedRunBlocksItsTarget(workers: nat, steps: seq<Step>, more: seq<Step>, w: nat, id: nat)
    requires Claims(Play(Init(workers), steps), w, id) && RemediationQueue.OthersOnly(more, w)
    ensures var t := Play(Init(workers), steps + more);
            && id < |t.rows|
            && (var r := t.rows[id];
                && RunningFor(t.rows, r.hostId, r.actionId)
                && (forall at, params, test | test != Untested ::
                      !Enabled(t, Enqueue(r.hostId, r.actionId, at, params, test)))
                && (forall j: nat | j < |t.rows| && SameTarget(t.rows[j], r.hostId, r.actionId) ::
                      ReplayRefusal(t, j) != None))
  {
    var t := Play(Init(workers), steps + more);
    AbandonedRunStays(workers, steps, more, w, id);
    assert Active(t.rows[id]) && SameTarget(t.rows[id], t.rows[id].hostId, t.rows[id].actionId);
  }

  /** The planner and the manual route refuse it, whatever else they see. */
  lemma AbandonedActionIsRefused(workers: nat, steps: seq<Step>, more: seq<Step>, w: nat, id: nat, p: Pass,
                                 c: Counters, later: seq<Run>, r: ManualRoute.Request, gaps: seq<seq<Step>>)
    requires Claims(Play(Init(workers), steps), w, id) && RemediationQueue.OthersOnly(more, w) && |gaps| == 5
    requires var s := Play(Init(workers), steps); id < |s.rows| && SameTarget(s.rows[id], p.host, r.action.id)
    ensures var t := Play(Init(workers), steps + more);
            && AutonomousPlanner.Refusal(p, c, t.rows, later, r.action, r.now) != None
            && ManualRoute.ManualVerdict(p, ManualRoute.ReadAmid(p, t, gaps, r), r) != None
  {
    AbandonedRunStays(workers, steps, more, w, id);
    AbandonedRunBlocksItsTarget(workers, steps, more, w, id);
  }

  // ---------------------------------------------------------------- a host that is full for good

  lemma {:induction false} CountAtLeast(rows: seq<Run>, which: Run -> bool, ids: set<nat>)
    requires forall id | id in ids :: id < |rows| && which(rows[id])
    ensures |ids| <= CountRuns(rows, which)
  {
    if rows == [] {
      assert ids == {};
    } else {
      var n := |rows| - 1;
      var rest := ids - {n};
      assert forall id | id in rest :: id < n && rows[..n][id] == rows[id];
      CountAtLeast(rows[..n], which, rest);
      assert n in ids ==> ids == rest + {n};
      assert n !in ids ==> ids == rest;
    }
  }

  /** Each of the runs is claimed by a worker that takes no further step. */
  ghost predicate Abandoned(s: System, more: seq<Step>, host: string, ids: set<nat>) {
    forall id | id in ids ::
      && id < |s.rows| && s.rows[id].hostId == host
      && exists w :: Claims(s, w, id) && RemediationQueue.OthersOnly(more, w)
  }

  /** However long others go on, the abandoned runs of a host keep counting as its active ones. */
  lemma AbandonedRunsKeepCounting(workers: nat, steps: seq<Step>, more: seq<Step>, p: Pass, ids: set<nat>)
    requires Abandoned(Play(Init(workers), steps), more, p.host, ids)
    ensures |ids| <= Count(p, Play(Init(workers), steps + more).rows, HostActive)
  {
    var s, t := Play(Init(workers), steps), Play(Init(workers), steps + more);
    forall id | id in ids ensures id < |t.rows| && Counted(p, HostActive, t.rows[id]) {
      var w :| Claims(s, w, id) && RemediationQueue.OthersOnly(more, w);
      AbandonedRunStays(workers, steps, more, w, id);
    }
    CountAtLeast(t.rows, (r: Run) => Counted(p, HostActive, r), ids);
  }

  /** A pass that finds the host full queues nothing, whatever happens during it. */
  lemma FullHostQueuesNothing(p: Pass, first: Progress, turns: seq<Turn>, n: nat)
    requires n <= |turns| && CounterOf(first.counters, HostActive) >= CapOf(p, HostActive)
    ensures PassUpTo(p, first, turns, n).counters == first.counters
  {
    var counters := first.counters;
    var good := (s: Progress) => s.counters == counters;
    forall s: Progress, t: Turn | good(s) ensures good(TakeTurn(RulesOf(p), s, t)) {
      FullHostSkips(p, s, t, TakeTurn(RulesOf(p), s, t));
    }
    KeptThroughout(RulesOf(p), good, (t: Turn) => true, first, turns, 0, n);
  }

  lemma FullHostSkips(p: Pass, s: Progress, turn: Turn, next: Progress)
    requires CounterOf(s.counters, HostActive) >= CapOf(p, HostActive) && next == TakeTurn(RulesOf(p), s, turn)
    ensures next.counters == s.counters
  {
    CounterRefusalIsExact(p, s.counters, [], [], turn.action, turn.now);
  }

  /** Once as many of its runs are abandoned as its cap allows to be active, no pass of the planner ever
      queues anything for the host again. */
  lemma AbandonedRunsFillTheHost(workers: nat, steps: seq<Step>, more: seq<Step>, p: Pass, ids: set<nat>,
                                 g: Counting, turns: seq<Turn>)
    requires Abandoned(Play(Init(workers), steps), more, p.host, ids) && |ids| >= CapOf(p, HostActive)
    ensures PassUpTo(p, Opening(p, Play(Init(workers), steps + more), g), turns, |turns|).counters.queuedNow == 0
  {
    var table := Play(Init(workers), steps + more);
    AbandonedRunsKeepCounting(workers, steps, more, p, ids);
    FullHostQueuesNothing(p, Opening(p, table, g), turns, |turns|);
  }

  /** A create, a scan and a claim are enough: if the worker then stops, the first run stays running for
      good. */
  lemma AbandonedRunHappens(run: Payload) returns (steps: seq<Step>)
    requires FreshQueue(run.queue) && !run.queue.approval.required
    ensures Claims(Play(Init(1), steps), 0, 0) && |Play(Init(1), steps).rows| == 1
  {
    steps := PlannerCaps.RunIsClaimed(run);
  }
}
