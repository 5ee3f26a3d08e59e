/** The run table as the source keeps it, changed in place (src/lib/remediate/queue.ts). Every
    method is proved to perform steps of the drain protocol and nothing else, also when other
    workers and operators act between any two of its database accesses, so everything proved of
    reachable protocol states holds of the table. */
module RemediationQueue {
  import opened Common
  import opened QueueRuntime
  import opened DrainProtocol
  import opened DrainInvariant
  import opened DrainSafety
  import DrainTheorems
  import opened LateWrites
  import opened QueueOrder
  import Guard

  /** The candidate loop of claimNextQueuedRun. */
  method PickCandidate(rows: seq<Run>, now: int) returns (r: Option<nat>)
    ensures r == Pick(rows, now)
  {
    var keys := Candidates(rows);
    OldestFirstIsTheQuery(rows, IsQueued);
    CandidatesExist(rows);
    for next := 0 to |keys|
      invariant FirstClaimable(rows, keys, now) == FirstClaimable(rows, keys[next..], now)
    {
      assert keys[next] in OldestFirst(rows, IsQueued) && keys[next..][1..] == keys[next + 1..];
      var candidate := rows[keys[next].id];
      if candidate.params.Unreadable? || Ready(candidate.params.payload.queue, now) {
        return Some(keys[next].id);
      }
    }
    return None;
  }

  /** The outside world during one drain iteration: clocks, flags, outcomes, and what other
      workers and operators do in the gaps. */
  datatype Turn = Turn(
    claimNow: int, races: seq<seq<Step>>, afterClaim: seq<Step>,
    hostEnabled: bool, policy: Policy, afterRead: seq<Step>, now: int, ttlNow: int, afterChecks: seq<Step>,
    commands: Outcome, duringCommands: seq<Step>,
    canary: Outcome, duringCanary: seq<Step>,
    rollback: Outcome, duringRollback: seq<Step>)

  predicate OthersOnly(steps: seq<Step>, w: nat) {
    forall i | 0 <= i < |steps| :: !(IsWorkerStep(steps[i]) && steps[i].w == w)
  }

  predicate TurnFor(t: Turn, w: nat) {
    && |t.races| == 8 && (forall i | 0 <= i < 8 :: OthersOnly(t.races[i], w))
    && OthersOnly(t.afterClaim, w) && OthersOnly(t.afterRead, w) && OthersOnly(t.afterChecks, w)
    && OthersOnly(t.duringCommands, w) && OthersOnly(t.duringCanary, w) && OthersOnly(t.duringRollback, w)
  }

  datatype ItemState = ItemSucceeded | ItemFailed | ItemCanceled | RetryScheduled | ApprovalPending

  /** QueueDrainResultItem */
  datatype Item = Item(runId: nat, state: ItemState, attempts: int, maxAttempts: int,
                       nextAttemptAt: Option<int>, dlq: bool)

  /** The report about a run tells what was written for it: limit is the attempt limit of the policy,
      reported of a run that cannot be read. */
  predicate ItemTrue(item: Item, r: Run, limit: int) {
    && r.state == (match item.state
                   case ItemSucceeded => Succeeded case ItemFailed => Failed case ItemCanceled => Canceled
                   case RetryScheduled => Queued case ApprovalPending => Queued)
    && (item.dlq <==> r.state == Failed)
    && match r.params
       case Unreadable =>
         && item.attempts == 0 && item.maxAttempts == (if r.state == Failed then limit else ClampInt(limit, 1, 20))
         && item.nextAttemptAt == None
       case Readable(p) =>
         && item.attempts == p.queue.attempts && item.maxAttempts == p.queue.maxAttempts
         && item.nextAttemptAt == (if r.state == Queued then p.queue.nextAttemptAt else None)
         && (r.state == Queued ==>
               (item.state == ApprovalPending <==> p.queue.approval.required && p.queue.approval.status != Approved))
  }

  // ---------------------------------------------------------------- the steps of a drain

  /** What one pick comes to. */
  function RaceTrace(w: nat, id: nat, now: int, race: seq<Step>): seq<Step> {
    [Scan(w, id, now)] + race + [TakeClaim(w, now)]
  }

  predicate HasClaimed(s: System, w: nat) { w < |s.workers| && s.workers[w].Claimed? }

  /** claimNextQueuedRun up to the re-read: picks until one holds, or nothing is left to pick, or all
      rounds are used up. */
  function ClaimWithin(s: System, w: nat, now: int, races: seq<seq<Step>>): System
    decreases |races|
  {
    if races == [] then s
    else
      var next := Pick(s.rows, now);
      if next == None then s
      else
        var t := Play(s, RaceTrace(w, next.value, now, races[0]));
        if HasClaimed(t, w) then t else ClaimWithin(t, w, now, races[1..])
  }

  /** One more round of the claim. */
  lemma ClaimRound(s: System, w: nat, now: int, races: seq<seq<Step>>, i: nat)
    requires i < |races|
    ensures var next := Pick(s.rows, now);
            if next == None then ClaimWithin(s, w, now, races[i..]) == s
            else
              var t := Play(s, RaceTrace(w, next.value, now, races[i]));
              ClaimWithin(s, w, now, races[i..])
              == if HasClaimed(t, w) then t else ClaimWithin(t, w, now, races[i + 1..])
  {
    assert races[i..][0] == races[i] && races[i..][1..] == races[i + 1..];
  }

  /** From the claim up to the checks. */
  function CheckTrace(w: nat, t: Turn): seq<Step> {
    t.afterClaim + [Reread(w, t.hostEnabled, t.policy)] + t.afterRead + [CheckClaim(w, t.now, t.ttlNow)]
  }

  /** From the checks up to the final write. */
  function ExecuteTrace(w: nat, t: Turn): seq<Step> {
    t.afterChecks + [RunCommands(w, t.commands)] + t.duringCommands + [RunCanary(w, t.canary)] + t.duringCanary
    + [RunRollback(w, t.rollback)] + t.duringRollback + [SettleRun(w)]
  }

  function Claiming(s: System, w: nat, t: Turn): System { ClaimWithin(s, w, t.claimNow, t.races) }

  /** The run that a turn claims, if any. */
  function Taken(s: System, w: nat, t: Turn): Option<nat> {
    var claiming := Claiming(s, w, t);
    if HasClaimed(claiming, w) then Some(claiming.workers[w].id) else None
  }

  predicate IsCleared(s: System, w: nat) { w < |s.workers| && s.workers[w].Cleared? }

  /** One turn of the drain loop: the run it claims is checked, and executed when the checks let it
      through. */
  function AfterTurn(s: System, w: nat, t: Turn): System {
    var claiming := Claiming(s, w, t);
    if Taken(s, w, t) == None then claiming
    else
      var checked := Play(claiming, CheckTrace(w, t));
      if IsCleared(checked, w) then Play(checked, ExecuteTrace(w, t)) else checked
  }

  /** The turn leads from one table to the other, claims a run, and the item is the true report about
      it. */
  ghost predicate Reports(s: System, w: nat, t: Turn, s': System, item: Item) {
    && s' == AfterTurn(s, w, t) && Taken(s, w, t) == Some(item.runId)
    && item.runId < |s'.rows| && ItemTrue(item, s'.rows[item.runId], t.policy.maxRetryAttempts)
  }

  /** The tables between the turns, with one report for each turn, in order. */
  ghost predicate Drains(tables: seq<System>, w: nat, turns: seq<Turn>, items: seq<Item>) {
    && |tables| == |items| + 1 <= |turns| + 1
    && forall k {:trigger items[k]} | 0 <= k < |items| :: Reports(tables[k], w, turns[k], tables[k + 1], items[k])
  }

  lemma {:induction false} ClaimIsPlay(s: System, w: nat, now: int, races: seq<seq<Step>>) returns (steps: seq<Step>)
    ensures ClaimWithin(s, w, now, races) == Play(s, steps)
    decreases |races|
  {
    var next := Pick(s.rows, now);
    if races == [] || next == None {
      steps := [];
    } else {
      steps := RaceTrace(w, next.value, now, races[0]);
      if !HasClaimed(Play(s, steps), w) {
        var more := ClaimIsPlay(Play(s, steps), w, now, races[1..]);
        PlayConcat(s, steps, more);
        steps := steps + more;
      }
    }
  }

  lemma TurnIsPlay(s: System, w: nat, t: Turn) returns (steps: seq<Step>)
    ensures AfterTurn(s, w, t) == Play(s, steps)
  {
    steps := ClaimIsPlay(s, w, t.claimNow, t.races);
    if Taken(s, w, t).Some? {
      PlayConcat(s, steps, CheckTrace(w, t));
      steps := steps + CheckTrace(w, t);
      if IsCleared(Play(s, steps), w) {
        PlayConcat(s, steps, ExecuteTrace(w, t));
        steps := steps + ExecuteTrace(w, t);
      }
    }
  }

  lemma OneMoreReport(tables: seq<System>, w: nat, turns: seq<Turn>, items: seq<Item>, next: System, item: Item)
    requires Drains(tables, w, turns, items) && |items| < |turns|
    requires Reports(tables[|items|], w, turns[|items|], next, item)
    ensures Drains(tables + [next], w, turns, items + [item])
  {
  }

  /** A drain moves the table by steps of the protocol only. */
  lemma {:induction false} DrainIsPlay(tables: seq<System>, w: nat, turns: seq<Turn>, items: seq<Item>)
    returns (steps: seq<Step>)
    requires Drains(tables, w, turns, items)
    ensures tables[|items|] == Play(tables[0], steps)
    decreases |items|
  {
    if items == [] {
      steps := [];
    } else {
      var n := |items| - 1;
      var before := DrainIsPlay(tables[..n + 1], w, turns, items[..n]);
      assert Reports(tables[n], w, turns[n], tables[n + 1], items[n]);
      var more := TurnIsPlay(tables[n], w, turns[n]);
      PlayConcat(tables[0], before, more);
      steps := before + more;
    }
  }

  lemma OneStepSparesPhase(s: System, step: Step, w: nat)
    requires w < |s.workers| && !(IsWorkerStep(step) && step.w == w)
    ensures var t := Apply(s, step); |t.workers| == |s.workers| && t.workers[w] == s.workers[w]
  {
  }

  /** Other actors leave a worker's phase and the row it owns alone. */
  lemma OneStepSparesOwner(s: System, step: Step, w: nat)
    requires Inv(s) && w < |s.workers| && !(IsWorkerStep(step) && step.w == w)
    ensures var t := Apply(s, step);
            && |t.workers| == |s.workers| && t.workers[w] == s.workers[w] && |t.rows| >= |s.rows|
            && (RunOf(s.workers[w]).Some? ==>
                  var id := RunOf(s.workers[w]).value; id < |s.rows| && t.rows[id] == s.rows[id])
  {
    OneStepSparesPhase(s, step, w);
    DrainTheorems.RowCount(s, step);
    if RunOf(s.workers[w]).Some? {
      var id := RunOf(s.workers[w]).value;
      assert WorkerOk(s.rows, s.parents, s.log, s.workers[w]);
      NotHeldByOthers(s, w, id);
      DrainTheorems.StepMoves(s, step, id);
    }
  }

  lemma {:induction false} OthersSpareOwner(s: System, steps: seq<Step>, w: nat)
    requires Inv(s) && w < |s.workers| && OthersOnly(steps, w)
    ensures var t := Play(s, steps);
            && Inv(t)
            && |t.workers| == |s.workers| && t.workers[w] == s.workers[w] && |t.rows| >= |s.rows|
            && (RunOf(s.workers[w]).Some? ==>
                  var id := RunOf(s.workers[w]).value; id < |s.rows| && t.rows[id] == s.rows[id])
    decreases |steps|
  {
    assert RunOf(s.workers[w]).Some? ==> WorkerOk(s.rows, s.parents, s.log, s.workers[w]);
    if steps != [] {
      var before := steps[..|steps| - 1];
      OthersSpareOwner(s, before, w);
      StepKeepsInv(Play(s, before), steps[|steps| - 1]);
      OneStepSparesOwner(Play(s, before), steps[|steps| - 1], w);
    }
  }

  class RunTable {
    var rows: seq<Run>
    var workers: seq<Worker>
    var parents: seq<Option<nat>>
    var log: History

    function Sys(): System
      reads this
    {
      System(rows, workers, parents, log)
    }

    ghost predicate Valid()
      reads this
    {
      Inv(Sys())
    }

    constructor (n: nat)
      ensures Valid() && Sys() == Init(n)
    {
      rows, workers, parents, log := [], seq(n, _ => Idle), [], Start;
    }

    /** A gap in which other workers, planners and operators act. */
    method Others(steps: seq<Step>, w: nat)
      requires Valid() && w < |workers| && OthersOnly(steps, w)
      modifies this
      ensures Valid() && Sys() == Play(old(Sys()), steps)
      ensures |workers| == |old(workers)| && workers[w] == old(workers[w]) && |rows| >= |old(rows)|
      ensures RunOf(workers[w]).Some? ==>
                var id := RunOf(workers[w]).value; id < |old(rows)| && rows[id] == old(rows)[id]
    {
      OthersSpareOwner(Sys(), steps, w);
      var s := Play(Sys(), steps);
      rows, workers, parents, log := s.rows, s.workers, s.parents, s.log;
    }

    /** Time passes: anyone may act. */
    method Elapse(steps: seq<Step>)
      requires Valid()
      modifies this
      ensures Valid() && Sys() == Play(old(Sys()), steps)
    {
      PlayKeepsInv(Sys(), steps);
      var s := Play(Sys(), steps);
      rows, workers, parents, log := s.rows, s.workers, s.parents, s.log;
    }

    /** The candidate read has picked a run; nothing protects it yet. */
    method Scan(w: nat, id: nat, now: int)
      requires Valid() && w < |workers| && workers[w] == Idle && id < |rows| && Claimable(rows[id], now)
      modifies this`workers
      ensures Valid() && Sys() == Apply(old(Sys()), DrainProtocol.Scan(w, id, now))
      ensures |workers| == |old(workers)| && workers[w] == Picked(id)
    {
      StepKeepsInv(Sys(), DrainProtocol.Scan(w, id, now));
      workers := workers[w := Picked(id)];
    }

    /** updateMany with the queued state in its filter, and the test of its count. */
    method TakeClaim(w: nat, now: int) returns (won: bool)
      requires Valid() && w < |workers| && workers[w].Picked?
      modifies this
      ensures Valid() && Sys() == Apply(old(Sys()), DrainProtocol.TakeClaim(w, now))
      ensures var id := old(workers)[w].id; won <==> id < |old(rows)| && old(rows)[id].state == Queued
      ensures |workers| == |old(workers)| && |rows| == |old(rows)|
      ensures var id := old(workers)[w].id;
              if won then workers[w] == Claimed(id) && id < |rows| && rows[id].state == Running
              else workers[w] == Idle
    {
      assert WorkerOk(rows, parents, log, workers[w]);
      StepKeepsInv(Sys(), DrainProtocol.TakeClaim(w, now));
      var id := workers[w].id;
      won := rows[id].state == Queued;
      if won { rows := rows[id := rows[id].(state := Running, startedAt := Some(now))]; }
      workers := workers[w := if won then Claimed(id) else Idle];
    }

    /** One pick: whatever others do before the conditional update decides whether it takes hold;
        when they do nothing, it does. */
    method RaceFor(w: nat, id: nat, now: int, race: seq<Step>) returns (won: bool)
      requires Valid() && w < |workers| && workers[w] == Idle && id < |rows| && Claimable(rows[id], now)
      requires OthersOnly(race, w)
      modifies this
      ensures Valid() && Sys() == Play(old(Sys()), RaceTrace(w, id, now, race)) && |workers| == |old(workers)|
      ensures if won then workers[w] == Claimed(id) && id < |rows| && rows[id].state == Running else workers[w] == Idle
      ensures race == [] ==> won
    {
      ghost var start := Sys();
      ghost var trace := [DrainProtocol.Scan(w, id, now)];
      PlayOne(start, [], DrainProtocol.Scan(w, id, now));
      Scan(w, id, now);
      PlayConcat(start, trace, race);
      Others(race, w);
      trace := trace + race;
      PlayOne(start, trace, DrainProtocol.TakeClaim(w, now));
      won := TakeClaim(w, now);
    }

    /** claimNextQueuedRun up to the re-read: at most eight picks, each lost when another worker or
        an operator got to the picked run first. */
    method ClaimNextQueuedRun(w: nat, t: Turn) returns (claimed: Option<nat>)
      requires Valid() && w < |workers| && workers[w] == Idle && TurnFor(t, w)
      modifies this
      ensures Valid() && Sys() == Claiming(old(Sys()), w, t) && |workers| == |old(workers)|
      ensures claimed == Taken(old(Sys()), w, t)
      ensures match claimed
              case None => workers[w] == Idle
              case Some(id) => workers[w] == Claimed(id) && id < |rows| && rows[id].state == Running
    {
      ghost var start := Sys();
      assert t.races[0..] == t.races;
      for i := 0 to 8
        invariant Valid() && |workers| == |start.workers| && workers[w] == Idle
        invariant Claiming(start, w, t) == ClaimWithin(Sys(), w, t.claimNow, t.races[i..])
      {
        ghost var before := Sys();
        ClaimRound(before, w, t.claimNow, t.races, i);
        PickIsClaimable(rows, t.claimNow);
        var next := PickCandidate(rows, t.claimNow);
        if next == None { return None; }
        var won := RaceFor(w, next.value, t.claimNow, t.races[i]);
        if won { return next; }
      }
      return None;
    }

    /** findUnique after the claim. */
    method Reread(w: nat, hostEnabled: bool, policy: Policy) returns (run: Run)
      requires Valid() && w < |workers| && workers[w].Claimed?
      modifies this`workers
      ensures Valid() && Sys() == Apply(old(Sys()), DrainProtocol.Reread(w, hostEnabled, policy))
      ensures |workers| == |old(workers)|
      ensures var id := old(workers)[w].id;
              id < |rows| && run == rows[id] && workers[w] == Loaded(id, Claim(run, hostEnabled, policy))
    {
      assert WorkerOk(rows, parents, log, workers[w]);
      StepKeepsInv(Sys(), DrainProtocol.Reread(w, hostEnabled, policy));
      var id := workers[w].id;
      run := rows[id];
      workers := workers[w := Loaded(id, Claim(run, hostEnabled, policy))];
    }

    /** finishRun and updateRun: write the claimed row and let go of it. */
    method UpdateRun(w: nat, id: nat, u: Update)
      requires w < |workers| && id < |rows|
      modifies this`rows, this`workers
      ensures Sys() == SetWorker(WriteRow(old(Sys()), id, u), w, Idle)
      ensures rows[id] == ApplyUpdate(old(rows)[id], u)
    {
      var row := rows[id].(state := u.state);
      if u.startedAt.Some? { row := row.(startedAt := u.startedAt.value); }
      if u.finishedAt.Some? { row := row.(finishedAt := u.finishedAt.value); }
      if u.params.Some? { row := row.(params := u.params.value); }
      rows := rows[id := row];
      workers := workers[w := Idle];
    }

    /** The part of the drain loop between the re-read and the execution. */
    method CheckClaim(w: nat, now: int, ttlNow: int) returns (item: Option<Item>)
      requires Valid() && w < |workers| && workers[w].Loaded?
      modifies this
      ensures Valid() && Sys() == Apply(old(Sys()), DrainProtocol.CheckClaim(w, now, ttlNow))
      ensures |workers| == |old(workers)|
      ensures var k := old(workers)[w];
              match item
              case None => k.claim.run.params.Readable? && workers[w] == Cleared(k.id, k.claim, now, ttlNow)
              case Some(it) => workers[w] == Idle && it.runId == k.id < |rows|
                               && ItemTrue(it, rows[k.id], k.claim.policy.maxRetryAttempts)
    {
      var k := workers[w];
      ghost var before := Sys();
      assert WorkerOk(rows, parents, log, k);
      StepKeepsInv(before, DrainProtocol.CheckClaim(w, now, ttlNow));
      var update, state := DecideClaim(k.claim, now, ttlNow);
      if update.Some? {
        ReleaseReportIsTrue(k.id, k.claim, now, ttlNow, update.value, state);
        UpdateRun(w, k.id, update.value);
        item := Some(ReportOf(k.id, state, rows[k.id].params, k.claim.policy.maxRetryAttempts));
      } else {
        workers := workers[w := Cleared(k.id, k.claim, now, ttlNow)];
        item := None;
      }
      assert Sys() == Apply(before, DrainProtocol.CheckClaim(w, now, ttlNow));
    }

    method RunCommands(w: nat, outcome: Outcome)
      requires Valid() && w < |workers| && workers[w].Cleared? && workers[w].claim.run.params.Readable?
      modifies this`workers, this`log
      ensures Valid() && Sys() == Apply(old(Sys()), DrainProtocol.RunCommands(w, outcome))
      ensures |workers| == |old(workers)|
      ensures var k := old(workers)[w];
              workers[w] == Working(k.id, k.claim, k.now, AfterCommands,
                                    AttemptCommands(k.claim.run.params.payload.queue, k.now, outcome))
    {
      ghost var before := Sys();
      StepKeepsInv(before, DrainProtocol.RunCommands(w, outcome));
      var k := workers[w];
      var queue := k.claim.run.params.payload.queue;
      var attempt := ApplyCommands(queue, k.now, outcome);
      log := Then(log, Executed(k.id, k.now, attempt.queue.attempts, k.claim.policy.retryBackoffSeconds,
                                k.claim.policy.retryBackoffMaxSeconds, queue.approval.required));
      workers := workers[w := Working(k.id, k.claim, k.now, AfterCommands, attempt)];
      assert Sys() == Apply(before, DrainProtocol.RunCommands(w, outcome));
    }

    method RunCanary(w: nat, outcome: Outcome)
      requires Valid() && w < |workers| && workers[w].Working? && workers[w].stage == AfterCommands
      modifies this`workers
      ensures Valid() && Sys() == Apply(old(Sys()), DrainProtocol.RunCanary(w, outcome))
      ensures |workers| == |old(workers)|
      ensures var k := old(workers)[w];
              workers[w] == k.(stage := AfterCanary, attempt := AttemptCanary(k.attempt, k.now, outcome))
    {
      ghost var before := Sys();
      StepKeepsInv(before, DrainProtocol.RunCanary(w, outcome));
      var k := workers[w];
      var attempt := ApplyCanary(k.attempt, k.now, outcome);
      workers := workers[w := k.(stage := AfterCanary, attempt := attempt)];
      assert Sys() == Apply(before, DrainProtocol.RunCanary(w, outcome));
    }

    method RunRollback(w: nat, outcome: Outcome)
      requires Valid() && w < |workers| && workers[w].Working? && workers[w].stage == AfterCanary
      modifies this`workers, this`log
      ensures Valid() && Sys() == Apply(old(Sys()), DrainProtocol.RunRollback(w, outcome))
      ensures |workers| == |old(workers)|
      ensures var k := old(workers)[w];
              workers[w] == k.(stage := AfterRollback, attempt := AttemptRollback(k.attempt, k.now, outcome))
    {
      ghost var before := Sys();
      StepKeepsInv(before, DrainProtocol.RunRollback(w, outcome));
      var k := workers[w];
      var due := RollbackDue(k.attempt);
      var attempt := ApplyRollback(k.attempt, k.now, outcome);
      if due { log := Then(log, RolledBack(k.id)); }
      workers := workers[w := k.(stage := AfterRollback, attempt := attempt)];
      assert Sys() == Apply(before, DrainProtocol.RunRollback(w, outcome));
    }

    method SettleRun(w: nat) returns (item: Item)
      requires Valid() && w < |workers| && workers[w].Working? && workers[w].stage == AfterRollback
      modifies this
      ensures Valid() && Sys() == Apply(old(Sys()), DrainProtocol.SettleRun(w))
      ensures |workers| == |old(workers)| && workers[w] == Idle
      ensures var k := old(workers)[w];
              item.runId == k.id < |rows| && ItemTrue(item, rows[k.id], k.claim.policy.maxRetryAttempts)
      ensures var k := old(workers)[w];
              && k.id < |old(rows)| && k.claim.run.params.Readable?
              && rows[k.id] == ApplyUpdate(old(rows)[k.id],
                                           Settle(k.claim.run.params.payload, k.attempt, k.claim.policy, k.now))
    {
      var k := workers[w];
      ghost var before := Sys();
      assert WorkerOk(rows, parents, log, k);
      StepKeepsInv(before, DrainProtocol.SettleRun(w));
      var update, state := DecideOutcome(k.claim.run.params.payload, k.attempt, k.claim.policy, k.now);
      UpdateRun(w, k.id, update);
      assert Sys() == Apply(before, DrainProtocol.SettleRun(w));
      item := ReportOf(k.id, state, rows[k.id].params, k.claim.policy.maxRetryAttempts);
    }

    /** One turn of the drain loop, and its report if it claims a run. */
    method DrainOne(w: nat, t: Turn) returns (item: Option<Item>)
      requires Valid() && w < |workers| && workers[w] == Idle && TurnFor(t, w)
      modifies this
      ensures Valid() && Sys() == AfterTurn(old(Sys()), w, t)
      ensures |workers| == |old(workers)| && workers[w] == Idle
      ensures match item
              case None => Taken(old(Sys()), w, t) == None
              case Some(it) => && Taken(old(Sys()), w, t) == Some(it.runId) && it.runId < |rows|
                               && ItemTrue(it, rows[it.runId], t.policy.maxRetryAttempts)
    {
      var claimed := ClaimNextQueuedRun(w, t);
      if claimed == None { return None; }
      item := CheckClaimed(w, t);
      if item.None? {
        var report := ExecuteCleared(w, t);
        item := Some(report);
      }
    }

    /** The turn from the re-read to the checks. */
    method CheckClaimed(w: nat, t: Turn) returns (item: Option<Item>)
      requires Valid() && w < |workers| && workers[w].Claimed? && TurnFor(t, w)
      modifies this
      ensures Valid() && Sys() == Play(old(Sys()), CheckTrace(w, t)) && |workers| == |old(workers)|
      ensures var id := old(workers)[w].id;
              match item
              case None => && workers[w].Cleared? && workers[w].id == id && workers[w].claim.policy == t.policy
                           && workers[w].claim.run.params.Readable?
              case Some(it) => && workers[w] == Idle && it.runId == id < |rows|
                               && ItemTrue(it, rows[id], t.policy.maxRetryAttempts)
    {
      ghost var start := Sys();
      ghost var trace := t.afterClaim;
      Others(t.afterClaim, w);
      PlayOne(start, trace, DrainProtocol.Reread(w, t.hostEnabled, t.policy));
      var run := Reread(w, t.hostEnabled, t.policy);
      trace := trace + [DrainProtocol.Reread(w, t.hostEnabled, t.policy)];
      PlayConcat(start, trace, t.afterRead);
      Others(t.afterRead, w);
      trace := trace + t.afterRead;
      PlayOne(start, trace, DrainProtocol.CheckClaim(w, t.now, t.ttlNow));
      item := CheckClaim(w, t.now, t.ttlNow);
    }

    /** The rest of the turn, once the commands may run: whatever others do meanwhile, the row gets
        what the outcomes say, on top of what it was. */
    method ExecuteCleared(w: nat, t: Turn) returns (item: Item)
      requires Valid() && w < |workers| && workers[w].Cleared? && workers[w].claim.run.params.Readable?
      requires TurnFor(t, w)
      modifies this
      ensures Valid() && Sys() == Play(old(Sys()), ExecuteTrace(w, t))
      ensures |workers| == |old(workers)| && workers[w] == Idle
      ensures var k := old(workers)[w];
              && item.runId == k.id < |rows| && k.id < |old(rows)|
              && ItemTrue(item, rows[k.id], k.claim.policy.maxRetryAttempts)
              && rows[k.id] == ApplyUpdate(old(rows)[k.id], DrainTheorems.FinalWrite(
                   k.claim.run.params.payload, k.claim.policy, k.now,
                   DrainTheorems.Outcomes(t.commands, t.canary, t.rollback)))
    {
      ghost var start := Sys();
      ghost var trace := t.afterChecks;
      Others(t.afterChecks, w);
      PlayOne(start, trace, DrainProtocol.RunCommands(w, t.commands));
      RunCommands(w, t.commands);
      trace := trace + [DrainProtocol.RunCommands(w, t.commands)];
      PlayConcat(start, trace, t.duringCommands);
      Others(t.duringCommands, w);
      trace := trace + t.duringCommands;
      PlayOne(start, trace, DrainProtocol.RunCanary(w, t.canary));
      RunCanary(w, t.canary);
      trace := trace + [DrainProtocol.RunCanary(w, t.canary)];
      PlayConcat(start, trace, t.duringCanary);
      Others(t.duringCanary, w);
      trace := trace + t.duringCanary;
      PlayOne(start, trace, DrainProtocol.RunRollback(w, t.rollback));
      RunRollback(w, t.rollback);
      trace := trace + [DrainProtocol.RunRollback(w, t.rollback)];
      PlayConcat(start, trace, t.duringRollback);
      Others(t.duringRollback, w);
      trace := trace + t.duringRollback;
      PlayOne(start, trace, DrainProtocol.SettleRun(w));
      item := SettleRun(w);
    }

    /** drainRemediationQueue: at most clamp(limit, 1, 50) turns, until one finds nothing; one true
        report for each run claimed, in order. */
    method DrainRemediationQueue(w: nat, limit: int, turns: seq<Turn>)
      returns (ok: bool, items: seq<Item>, ghost tables: seq<System>)
      requires Valid() && w < |workers| && workers[w] == Idle
      requires |turns| == ClampInt(limit, 1, 50) && forall i | 0 <= i < |turns| :: TurnFor(turns[i], w)
      modifies this
      ensures Valid() && |workers| == |old(workers)| && workers[w] == Idle
      ensures Drains(tables, w, turns, items) && tables[0] == old(Sys())
      ensures if |items| == |turns| then Sys() == tables[|items|]
              else && Taken(tables[|items|], w, turns[|items|]) == None
                   && Sys() == AfterTurn(tables[|items|], w, turns[|items|])
      ensures ok <==> forall item | item in items :: item.state != ItemFailed && item.state != ItemCanceled
    {
      items, ok, tables := [], true, [Sys()];
      for i := 0 to |turns|
        invariant Valid() && |workers| == |old(workers)| && workers[w] == Idle
        invariant |items| == i && Drains(tables, w, turns, items) && tables[0] == old(Sys()) && tables[i] == Sys()
        invariant ok <==> forall item | item in items :: item.state != ItemFailed && item.state != ItemCanceled
      {
        var item := DrainOne(w, turns[i]);
        if item == None { return; }
        OneMoreReport(tables, w, turns, items, Sys(), item.value);
        items := items + [item.value];
        tables := tables + [Sys()];
        ok := ok && item.value.state != ItemFailed && item.value.state != ItemCanceled;
      }
    }

    /** How planner and manual route create a run: the test of the table, then the create, with others
        acting in between. When nobody does, it is the step that tests as it writes. */
    method EnqueueRun(hostId: string, actionId: string, at: int, params: Stored, planned: bool, gap: seq<Step>)
      returns (ok: bool)
      requires Valid() && FreshParams(params)
      modifies this
      ensures ok <==> !(if planned then ActiveFor(old(rows), hostId, actionId)
                        else RunningFor(old(rows), hostId, actionId))
      ensures Valid()
      ensures Sys() == if ok then Apply(Play(old(Sys()), gap), Enqueue(hostId, actionId, at, params, Untested))
                       else old(Sys())
      ensures gap == [] ==>
                Sys() == Apply(old(Sys()), Enqueue(hostId, actionId, at, params,
                                                   if planned then NoneActive else NoneRunning))
    {
      ok := !(if planned then ActiveFor(rows, hostId, actionId) else RunningFor(rows, hostId, actionId));
      if ok {
        Elapse(gap);
        CreateRun(hostId, actionId, at, params);
      }
    }

    /** The create by itself. */
    method CreateRun(hostId: string, actionId: string, at: int, params: Stored)
      requires Valid() && FreshParams(params)
      modifies this
      ensures Valid() && Sys() == Apply(old(Sys()), Enqueue(hostId, actionId, at, params, Untested))
    {
      StepKeepsInv(Sys(), Enqueue(hostId, actionId, at, params, Untested));
      rows := rows + [NewRun(hostId, actionId, at, params)];
      parents := parents + [None];
    }

    /** replayRemediationRun: the row, the count of active runs and the transaction, with others acting
        in between. */
    method ReplayRemediationRun(id: nat, mid: seq<Step>, gap: seq<Step>, now: int) returns (refusal: Option<Refusal>)
      requires Valid()
      modifies this
      ensures Valid() && refusal == LateReplayRefusal(old(Sys()), Play(old(Sys()), mid), id)
      ensures refusal.Some? ==>
                Sys() == if refusal.value == ActiveRunExists then Play(old(Sys()), mid) else old(Sys())
      ensures refusal.None? ==>
                var s := Play(Play(old(Sys()), mid), gap);
                && id < |s.rows| && Replayable(old(Sys()), id)
                && Sys() == LateReplay(s, id, old(rows)[id], now)
    {
      ghost var early := Sys();
      if id >= |rows| { return Some(NotFound); }
      var source := rows[id];
      if source.state == Queued || source.state == Running { return Some(StillActive); }
      if source.params.Unreadable? { return Some(NotReplayable); }
      Elapse(mid);
      if ActiveFor(rows, source.hostId, source.actionId) { return Some(ActiveRunExists); }
      PlayConcat(early, mid, gap);
      LateReplayFrom(early, mid + gap, id, now);
      Elapse(gap);
      WriteReplay(id, source, now);
      return None;
    }

    /** The transaction of a replay. */
    method WriteReplay(id: nat, source: Run, now: int)
      requires id < |rows| && source.params.Readable?
      modifies this`rows, this`parents
      ensures Sys() == LateReplay(old(Sys()), id, source, now)
    {
      var queue := source.params.payload.queue;
      if source.state == Failed && queue.dlq {
        var reviewed := queue.(dlq := false, dlqReason := Some("replayed"), nextAttemptAt := None);
        rows := rows[id := rows[id].(
          state := Canceled,
          finishedAt := if source.finishedAt.Some? then source.finishedAt else Some(now),
          params := Readable(source.params.payload.(queue := reviewed)))];
      }
      rows := rows + [ReplayOf(source, id, now)];
      parents := parents + [Some(id)];
    }

    /** setRemediationRunApproval: the reading, then the write by id, with others acting in between.
        The table stays sound exactly when the run was left alone, and was not replayed before an
        approval. */
    method SetRemediationRunApproval(id: nat, approve: bool, gap: seq<Step>, now: int, actor: Option<string>,
                                     reason: Option<string>)
      returns (refusal: Option<Refusal>)
      requires Valid()
      modifies this
      ensures refusal == DecisionRefusal(old(Sys()), id)
      ensures refusal.Some? ==> Sys() == old(Sys())
      ensures refusal.None? ==>
                var seen := old(rows)[id].params.payload;
                var s := Play(old(Sys()), gap);
                && SeenForDecision(s, id, seen)
                && Sys() == (if approve then LateApproval(s, id, seen, now, actor, reason)
                             else LateRejection(s, id, seen, now, actor, reason))
                && (Valid() <==> Undisturbed(s, id, seen) && (approve ==> Some(id) !in s.parents))
    {
      ghost var early := Sys();
      if id >= |rows| { return Some(NotFound); }
      if rows[id].state != Queued { return Some(NotQueued); }
      if rows[id].params.Unreadable? { return Some(InvalidPayload); }
      var payload := rows[id].params.payload;
      if !payload.queue.approval.required { return Some(NoApprovalNeeded); }
      SeenStays(early, gap, id);
      Elapse(gap);
      if approve {
        LateApprovalKeepsInvExactlyWhen(Play(early, gap), id, payload, now, actor, reason);
        WriteApproval(id, payload, now, actor, reason);
      } else {
        LateRejectionKeepsInvExactlyWhen(Play(early, gap), id, payload, now, actor, reason);
        WriteRejection(id, payload, now, actor, reason);
      }
      refusal := None;
    }

    method WriteApproval(id: nat, payload: Payload, now: int, actor: Option<string>, reason: Option<string>)
      requires id < |rows|
      modifies this`rows, this`log
      ensures Sys() == LateApproval(old(Sys()), id, payload, now, actor, reason)
    {
      var queue := payload.queue;
      var text := DecisionReason(reason, "approved");
      queue := queue.(approval := queue.approval.(reason := Some(text), approvedAt := Some(now),
                                                  approvedByUserId := actor));
      queue := queue.(approval := queue.approval.(status := Approved), nextAttemptAt := None, lastError := None);
      rows := rows[id := rows[id].(state := Queued, startedAt := None, finishedAt := None,
                                   params := Readable(payload.(queue := queue)))];
      log := Then(log, ApprovalGranted(id));
    }

    method WriteRejection(id: nat, payload: Payload, now: int, actor: Option<string>, reason: Option<string>)
      requires id < |rows|
      modifies this`rows
      ensures Sys() == LateRejection(old(Sys()), id, payload, now, actor, reason)
    {
      var queue := payload.queue;
      var text := DecisionReason(reason, "rejected");
      queue := queue.(approval := queue.approval.(reason := Some(text), approvedAt := Some(now),
                                                  approvedByUserId := actor));
      queue := queue.(approval := queue.approval.(status := Rejected), nextAttemptAt := None, lastError := Some(text));
      rows := rows[id := rows[id].(state := Canceled, startedAt := None, finishedAt := Some(now),
                                   params := Readable(payload.(queue := queue)))];
    }

    /** The loop of replayDeadLetterRuns. */
    method ReplayEach(keys: seq<Key>, now: int) returns (refusals: seq<Option<Refusal>>)
      requires Valid()
      modifies this
      ensures Valid() && Sys() == ReplayAll(old(Sys()), keys, |keys|, now)
      ensures refusals == Answers(old(Sys()), keys, |keys|, now)
    {
      refusals := [];
      ghost var start := Sys();
      for i := 0 to |keys|
        invariant Valid() && Sys() == ReplayAll(start, keys, i, now)
        invariant refusals == Answers(start, keys, i, now)
      {
        AnswersStep(start, keys, i, now);
        var refusal := ReplayAtOnce(keys[i].id, now);
        refusals := refusals + [refusal];
      }
    }

    /** A replay with nothing between its readings and its transaction. */
    method ReplayAtOnce(id: nat, now: int) returns (refusal: Option<Refusal>)
      requires Valid()
      modifies this
      ensures Valid() && refusal == ReplayRefusal(old(Sys()), id)
      ensures Sys() == Apply(old(Sys()), Replay(id, now))
    {
      ghost var before := Sys();
      PromptReplay(before, id, now);
      refusal := ReplayRemediationRun(id, [], [], now);
    }

    /** replayDeadLetterRuns: the oldest dead letters, replayed one after the other. */
    method ReplayDeadLetterRuns(limit: int, now: int) returns (taken: seq<Key>, refusals: seq<Option<Refusal>>)
      requires Valid()
      modifies this
      ensures Valid() && taken == DeadLettersToReplay(old(rows), limit)
      ensures Sys() == ReplayAll(old(Sys()), taken, |taken|, now)
      ensures refusals == Answers(old(Sys()), taken, |taken|, now)
    {
      taken := DeadLettersToReplay(rows, limit);
      refusals := ReplayEach(taken, now);
    }
  }

  function DeadLettersToReplay(rows: seq<Run>, limit: int): seq<Key> {
    Oldest(rows, DrainTheorems.DeadLettered, ClampInt(limit, 1, 50))
  }

  /** The dead letters requested before run i, or at the same instant but created before it. */
  ghost function OlderDeadLetters(rows: seq<Run>, i: nat): set<nat>
    requires i < |rows|
  {
    set j: nat | j < |rows| && rows[j].state == Failed && rows[j].params.Readable? && rows[j].params.payload.queue.dlq
                 && (rows[j].requestedAt < rows[i].requestedAt || (rows[j].requestedAt == rows[i].requestedAt && j < i))
  }

  /** Taken are exactly the dead letters with fewer older ones than the limit, between 1 and 50, allows. */
  lemma OldestDeadLettersAreTaken(rows: seq<Run>, limit: int, i: nat)
    ensures i in Ids(DeadLettersToReplay(rows, limit)) <==>
              && i < |rows| && rows[i].state == Failed && rows[i].params.Readable? && rows[i].params.payload.queue.dlq
              && |OlderDeadLetters(rows, i)| < Max(1, Min(limit, 50))
  {
    TheOldestAreTaken(rows, DrainTheorems.DeadLettered, Max(1, Min(limit, 50)), i);
    if i < |rows| { assert OlderDeadLetters(rows, i) == Before(rows, DrainTheorems.DeadLettered, i); }
  }

  /** The table after replaying the first n of these runs in turn. */
  function ReplayAll(s: System, keys: seq<Key>, n: nat, now: int): System
    requires n <= |keys|
  {
    if n == 0 then s else Apply(ReplayAll(s, keys, n - 1, now), Replay(keys[n - 1].id, now))
  }

  ghost predicate KeysOf(keys: seq<Key>, rows: seq<Run>) {
    forall k | 0 <= k < |keys| :: keys[k].id < |rows|
  }

  /** The target of key k has an active run, or is the target of one of the first n keys. */
  ghost predicate TargetTaken(rows: seq<Run>, keys: seq<Key>, n: nat, k: nat)
    requires KeysOf(keys, rows) && n <= |keys| && k < |keys|
  {
    var r := rows[keys[k].id];
    || ActiveFor(rows, r.hostId, r.actionId)
    || exists j | 0 <= j < n :: SameTarget(rows[keys[j].id], r.hostId, r.actionId)
  }

  /** What the replay of key k answers, after those of the keys before it. */
  function AnswerTo(s: System, keys: seq<Key>, k: nat, now: int): Option<Refusal>
    requires k < |keys|
  {
    ReplayRefusal(ReplayAll(s, keys, k, now), keys[k].id)
  }

  /** What the first n of these replays answer. */
  function Answers(s: System, keys: seq<Key>, n: nat, now: int): (r: seq<Option<Refusal>>)
    requires n <= |keys|
    ensures |r| == n
  {
    seq(n, (k: nat) requires k < n => AnswerTo(s, keys, k, now))
  }

  lemma AnswersStep(s: System, keys: seq<Key>, n: nat, now: int)
    requires n < |keys|
    ensures Answers(s, keys, n + 1, now) == Answers(s, keys, n, now) + [AnswerTo(s, keys, n, now)]
  {
  }

  lemma AnswerExact(s: System, keys: seq<Key>, k: nat, now: int)
    requires k < |keys| && KeysOf(keys, s.rows)
    requires forall a, b | 0 <= a < b < |keys| :: keys[a].id != keys[b].id
    requires forall j | 0 <= j < |keys| :: DrainTheorems.DeadLettered(s.rows[keys[j].id])
    ensures AnswerTo(s, keys, k, now) == None <==> !TargetTaken(s.rows, keys, k, k)
  {
    ReplayAllTakesTargets(s, keys, k, k, now);
    RefusalOfDeadLetter(ReplayAll(s, keys, k, now), keys[k].id);
  }

  lemma RefusalOfDeadLetter(s: System, id: nat)
    requires id < |s.rows| && DrainTheorems.DeadLettered(s.rows[id])
    ensures ReplayRefusal(s, id) == None <==> !ActiveFor(s.rows, s.rows[id].hostId, s.rows[id].actionId)
  {
  }

  lemma TargetTakenStep(rows: seq<Run>, keys: seq<Key>, n: nat, k: nat)
    requires KeysOf(keys, rows) && n < |keys| && k < |keys|
    ensures var r := rows[keys[k].id];
            TargetTaken(rows, keys, n + 1, k) <==>
              TargetTaken(rows, keys, n, k) || SameTarget(rows[keys[n].id], r.hostId, r.actionId)
  {
  }

  /** t keeps the row of key k as s has it, and has an active run for its target when one of the
      first n keys does. */
  ghost predicate Takes(s: System, keys: seq<Key>, n: nat, k: nat, t: System)
    requires KeysOf(keys, s.rows) && n <= |keys| && k < |keys|
  {
    var id := keys[k].id;
    && id < |t.rows| && t.rows[id] == s.rows[id]
    && (ActiveFor(t.rows, s.rows[id].hostId, s.rows[id].actionId) <==> TargetTaken(s.rows, keys, n, k))
  }

  lemma OneMoreReplay(s: System, m: System, keys: seq<Key>, n: nat, k: nat, now: int)
    requires n < |keys| && k < |keys| && KeysOf(keys, s.rows) && keys[n].id != keys[k].id
    requires Takes(s, keys, n, k, m)
    requires var id := keys[n].id; id < |m.rows| && m.rows[id] == s.rows[id] && DrainTheorems.DeadLettered(m.rows[id])
    ensures Takes(s, keys, n + 1, k, Apply(m, Replay(keys[n].id, now)))
  {
    var r := s.rows[keys[k].id];
    TargetTakenStep(s.rows, keys, n, k);
    ReplayTakesTarget(m, keys[n].id, now, r.hostId, r.actionId, keys[k].id);
  }

  lemma {:induction false} ReplayAllTakesTargets(s: System, keys: seq<Key>, n: nat, k: nat, now: int)
    requires n <= k < |keys| && KeysOf(keys, s.rows)
    requires forall a, b | 0 <= a < b < |keys| :: keys[a].id != keys[b].id
    requires forall j | 0 <= j < |keys| :: DrainTheorems.DeadLettered(s.rows[keys[j].id])
    ensures Takes(s, keys, n, k, ReplayAll(s, keys, n, now))
  {
    if n > 0 {
      ReplayAllTakesTargets(s, keys, n - 1, k, now);
      ReplayAllTakesTargets(s, keys, n - 1, n - 1, now);
      assert keys[n - 1].id != keys[k].id && DrainTheorems.DeadLettered(s.rows[keys[n - 1].id]);
      OneMoreReplay(s, ReplayAll(s, keys, n - 1, now), keys, n - 1, k, now);
    }
  }

  /** Of the dead letters taken, each is replayed exactly when its target had no active run to
      begin with and no earlier one taken has the same target. */
  lemma DeadLetterReplaysAreExact(s: System, limit: int, now: int, k: nat)
    requires k < |DeadLettersToReplay(s.rows, limit)|
    ensures var keys := DeadLettersToReplay(s.rows, limit);
            && KeysOf(keys, s.rows)
            && (Answers(s, keys, |keys|, now)[k] == None <==> !TargetTaken(s.rows, keys, k, k))
  {
    var keys := DeadLettersToReplay(s.rows, limit);
    OldestFirstIsTheQuery(s.rows, DrainTheorems.DeadLettered);
    assert forall j | 0 <= j < |keys| :: keys[j] in OldestFirst(s.rows, DrainTheorems.DeadLettered);
    AnswerExact(s, keys, k, now);
  }

  lemma ReplayTakesTarget(s: System, id: nat, now: int, h: string, a: string, other: nat)
    requires id < |s.rows| && DrainTheorems.DeadLettered(s.rows[id])
    ensures var t := Apply(s, Replay(id, now));
            && (ActiveFor(t.rows, h, a) <==> ActiveFor(s.rows, h, a) || SameTarget(s.rows[id], h, a))
            && (other < |s.rows| && other != id ==> other < |t.rows| && t.rows[other] == s.rows[other])
            && |t.rows| == |s.rows| + (if ReplayRefusal(s, id) == None then 1 else 0)
  {
    var t := Apply(s, Replay(id, now));
    var n := |s.rows|;
    if ReplayRefusal(s, id) == None {
      if SameTarget(s.rows[id], h, a) { assert Active(t.rows[n]) && SameTarget(t.rows[n], h, a); }
      if ActiveFor(s.rows, h, a) {
        var i :| 0 <= i < n && Active(s.rows[i]) && SameTarget(s.rows[i], h, a);
        assert t.rows[i] == s.rows[i];
      }
    }
  }

  function ReportOf(id: nat, state: ItemState, params: Stored, limit: int): Item {
    match params
    case Unreadable =>
      Item(id, state, 0, if state == ItemFailed then limit else ClampInt(limit, 1, 20), None, state == ItemFailed)
    case Readable(p) =>
      Item(id, state, p.queue.attempts, p.queue.maxAttempts,
           if state == RetryScheduled || state == ApprovalPending then p.queue.nextAttemptAt else None,
           state == ItemFailed)
  }

  /** The state that DecideClaim reports fits the write it asks for. */
  predicate StateFits(c: Claim, u: Update, state: ItemState) {
    match state
    case ItemCanceled => u.state == Canceled
    case ItemFailed => u.state == Failed
    case ItemSucceeded => false
    case _ => u.state == Queued && c.run.params.Readable?
              && (state == ApprovalPending <==> AwaitsApproval(c.run.params.payload.queue))
  }

  lemma ReleaseReportIsTrue(id: nat, c: Claim, now: int, ttlNow: int, u: Update, state: ItemState)
    requires Admit(c, now, ttlNow) == Release(u) && StateFits(c, u, state)
    ensures var r := ApplyUpdate(c.run, u);
            ItemTrue(ReportOf(id, state, r.params, c.policy.maxRetryAttempts), r, c.policy.maxRetryAttempts)
  {
  }

  /** The execution branch of the drain loop, on its local metadata. */
  method ApplyCommands(q: QueueMeta, now: int, outcome: Outcome) returns (r: Attempt)
    ensures r == AttemptCommands(q, now, outcome)
  {
    var queue := q;
    var attemptNumber := queue.attempts + 1;
    var executionOk := outcome == Passed;
    var executionError := RunError(outcome);
    queue := queue.(attempts := attemptNumber);
    queue := queue.(lastAttemptAt := Some(now));
    return Attempt(queue, executionOk, executionError);
  }

  /** The canary branch of the drain loop, on its local metadata. */
  method ApplyCanary(a: Attempt, now: int, outcome: Outcome) returns (r: Attempt)
    ensures r == AttemptCanary(a, now, outcome)
  {
    var queue, executionOk, executionError := a.queue, a.ok, a.error;
    if executionOk && queue.canary.enabled {
      var result := if queue.canary.checks == [] then Passed else outcome;
      queue := queue.(canary := queue.canary.(lastCheckedAt := Some(now)));
      queue := queue.(canary := queue.canary.(passed := Some(result == Passed)));
      queue := queue.(canary := queue.canary.(error := CanaryError(result)));
      if result != Passed {
        executionOk := false;
        executionError := Some(Truncate(Trim("Canary validation failed. " + queue.canary.error.value), 600));
      }
    }
    return Attempt(queue, executionOk, executionError);
  }

  /** The rollback branch of the drain loop, on its local metadata. */
  method ApplyRollback(a: Attempt, now: int, outcome: Outcome) returns (r: Attempt)
    ensures r == AttemptRollback(a, now, outcome)
  {
    var queue := a.queue;
    if !a.ok && queue.rollback.enabled && |queue.rollback.commands| > 0 && !queue.rollback.attempted {
      var rollback := queue.rollback;
      rollback := rollback.(attempted := true);
      rollback := rollback.(lastRunAt := Some(now));
      rollback := rollback.(succeeded := Some(outcome == Passed));
      rollback := rollback.(error := RollbackError(outcome));
      queue := queue.(rollback := rollback);
    }
    return Attempt(queue, a.ok, a.error);
  }

  /** The checks of the drain loop on a claimed run, in order, with the writes they lead to. */
  method DecideClaim(c: Claim, now: int, ttlNow: int) returns (update: Option<Update>, state: ItemState)
    ensures Admit(c, now, ttlNow) == (if update.Some? then Release(update.value) else Proceed)
    ensures if update.Some? then StateFits(c, update.value, state) else state == ItemSucceeded
  {
    if !c.hostEnabled {
      return Some(Finish(Canceled, now, if c.run.params.Readable? then Some(c.run.params) else None)), ItemCanceled;
    }
    if !WithinMinutes(c.run.requestedAt, c.policy.queueTtlMinutes, ttlNow) {
      return Some(Finish(Canceled, now, if c.run.params.Readable? then Some(c.run.params) else None)), ItemCanceled;
    }
    if c.run.params.Unreadable? {
      return Some(Finish(Failed, now, None)), ItemFailed;
    }
    var payload := c.run.params.payload;
    var queue := payload.queue;
    if !Ready(queue, now) {
      return Some(Requeue(payload)), if AwaitsApproval(queue) then ApprovalPending else RetryScheduled;
    }
    var issues := Guard.ValidateCommands(payload.commands, c.policy.guard);
    if |issues| > 0 {
      queue := queue.(dlq := true);
      queue := queue.(dlqReason := Some("policy_blocked"));
      queue := queue.(lastError := Some(BlockedMessage(issues)));
      queue := queue.(lastAttemptAt := Some(now));
      queue := queue.(nextAttemptAt := None);
      return Some(Finish(Failed, now, Some(Readable(payload.(queue := queue))))), ItemFailed;
    }
    return None, ItemSucceeded;
  }

  /** What the drain loop writes once the commands, the canary and the rollback are done with. */
  method DecideOutcome(payload: Payload, a: Attempt, policy: Policy, now: int)
    returns (update: Update, state: ItemState)
    ensures update == Settle(payload, a, policy, now)
    ensures state == match update.state
                     case Succeeded => ItemSucceeded case Queued => RetryScheduled case _ => ItemFailed
  {
    var queue := a.queue.(lastError := a.error);
    var shouldForceDlq := (queue.canary.enabled && queue.canary.passed == Some(false)) || queue.rollback.attempted;
    if a.ok {
      queue := queue.(nextAttemptAt := None);
      queue := queue.(dlq := false);
      queue := queue.(dlqReason := None);
      return Finish(Succeeded, now, Some(Readable(payload.(queue := queue)))), ItemSucceeded;
    }
    if !shouldForceDlq && ShouldRetry(queue.attempts, queue.maxAttempts) {
      var delaySeconds := RetryDelaySeconds(queue.attempts, policy.retryBackoffSeconds, policy.retryBackoffMaxSeconds);
      queue := queue.(nextAttemptAt := Some(NextRetryAt(now, delaySeconds)));
      queue := queue.(dlq := false);
      queue := queue.(dlqReason := None);
      return Requeue(payload.(queue := queue)), RetryScheduled;
    }
    queue := queue.(nextAttemptAt := None);
    queue := queue.(dlq := true);
    queue := queue.(dlqReason := Some(
      if shouldForceDlq then
        if queue.canary.passed == Some(false) then "canary_failed"
        else if queue.rollback.succeeded == Some(true) then "auto_rolled_back"
        else "auto_rollback_failed"
      else "max_attempts_exceeded"));
    return Finish(Failed, now, Some(Readable(payload.(queue := queue)))), ItemFailed;
  }
}
