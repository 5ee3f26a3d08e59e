/** The admission loop of the autonomous planner (src/lib/remediate/autonomous-runtime.ts): which
    actions of a plan become queued runs, under five caps. Drains, operators and other planners act
    between any two of its database accesses, so its running counters and the table drift apart. */
module AutonomousPlanner {
  import opened Common
  import opened QueueRuntime
  import opened DrainProtocol
  import opened CanaryBucket
  import opened CommandLists
  import opened RemediationPolicy
  import opened DrainInvariant
  import DrainSafety
  import DrainTheorems
  import Guard
  import LateWrites
  import RemediationQueue

  datatype PlanAction = PlanAction(
    id: string,
    tier: Tier,
    risk: Risk,
    commands: seq<string>,
    sourceCodes: seq<string>,
    rollbackNotes: seq<string>,
    canaryChecks: seq<string>,
    rollbackCommands: seq<string>)

  /** What one pass of the planner works with; hourAgo is an hour before it started. */
  datatype Pass = Pass(host: string, profile: Option<string>, policy: RemediationPolicy.Policy,
                       guard: Guard.GuardPolicy, hourAgo: int, reason: string)

  /** Why an action is not queued, in the order the checks run. */
  datatype Reason =
    | CycleLimit
    | ObserveOnly
    | TierTooHigh
    | AutonomousHourLimit
    | ExecuteHourLimit
    | HostBacklog
    | GlobalBacklog
    | AlreadyActive
    | CoolingDown
    | GuardBlocked
    | OutsideCanary
    | NoCanaryChecks

  datatype Decision =
    | Skipped(actionId: string, reason: Reason)
    | Enqueued(actionId: string, runId: nat, approvalRequired: bool, selection: Selection)

  // ---------------------------------------------------------------- counting the table

  function CountRuns(rows: seq<Run>, which: Run -> bool): nat {
    if rows == [] then 0
    else CountRuns(rows[..|rows| - 1], which) + (if which(rows[|rows| - 1]) then 1 else 0)
  }

  lemma CountAppend(rows: seq<Run>, r: Run, which: Run -> bool)
    ensures CountRuns(rows + [r], which) == CountRuns(rows, which) + (if which(r) then 1 else 0)
  {
    assert (rows + [r])[..|rows|] == rows;
  }

  /** What a pass keeps count of. */
  datatype Tally = HostActive | GlobalQueued | AutonomousHour | ExecuteHour

  predicate Counted(p: Pass, t: Tally, r: Run) {
    match t
    case HostActive => r.hostId == p.host && Active(r)
    case GlobalQueued => r.state == Queued
    case AutonomousHour =>
      r.hostId == p.host && r.requestedAt >= p.hourAgo && r.params.Readable? && r.params.payload.queue.autoQueued
    case ExecuteHour => r.hostId == p.host && r.requestedAt >= p.hourAgo
  }

  function Count(p: Pass, rows: seq<Run>, t: Tally): nat {
    CountRuns(rows, (r: Run) => Counted(p, t, r))
  }

  ghost function Which(rows: seq<Run>, which: Run -> bool): set<nat> {
    set i: nat | i < |rows| && which(rows[i])
  }

  lemma {:induction false} CountIsSize(rows: seq<Run>, which: Run -> bool)
    ensures CountRuns(rows, which) == |Which(rows, which)|
  {
    if rows != [] {
      var n := |rows| - 1;
      CountIsSize(rows[..n], which);
      var before := Which(rows[..n], which);
      assert Which(rows, which) == if which(rows[n]) then before + {n} else before;
    }
  }

  /** The four counts are how many runs are active on the host, how many are queued anywhere, and how
      many were requested for the host within the hour, by the planner itself and at all. */
  lemma CountsAreExact(p: Pass, rows: seq<Run>)
    ensures Count(p, rows, HostActive)
         == |set i: nat | i < |rows| && rows[i].hostId == p.host
                          && (rows[i].state == Queued || rows[i].state == Running)|
    ensures Count(p, rows, GlobalQueued) == |set i: nat | i < |rows| && rows[i].state == Queued|
    ensures Count(p, rows, AutonomousHour)
         == |set i: nat | i < |rows| && rows[i].hostId == p.host && p.hourAgo <= rows[i].requestedAt
                          && rows[i].params.Readable? && rows[i].params.payload.queue.autoQueued|
    ensures Count(p, rows, ExecuteHour)
         == |set i: nat | i < |rows| && rows[i].hostId == p.host && p.hourAgo <= rows[i].requestedAt|
  {
    CountIsSize(rows, (r: Run) => Counted(p, HostActive, r));
    CountIsSize(rows, (r: Run) => Counted(p, GlobalQueued, r));
    CountIsSize(rows, (r: Run) => Counted(p, AutonomousHour, r));
    CountIsSize(rows, (r: Run) => Counted(p, ExecuteHour, r));
    assert Which(rows, (r: Run) => Counted(p, HostActive, r))
        == set i: nat | i < |rows| && rows[i].hostId == p.host && (rows[i].state == Queued || rows[i].state == Running);
    assert Which(rows, (r: Run) => Counted(p, GlobalQueued, r)) == set i: nat | i < |rows| && rows[i].state == Queued;
    assert Which(rows, (r: Run) => Counted(p, AutonomousHour, r))
        == set i: nat | i < |rows| && rows[i].hostId == p.host && p.hourAgo <= rows[i].requestedAt
                        && rows[i].params.Readable? && rows[i].params.payload.queue.autoQueued;
    assert Which(rows, (r: Run) => Counted(p, ExecuteHour, r))
        == set i: nat | i < |rows| && rows[i].hostId == p.host && p.hourAgo <= rows[i].requestedAt;
  }

  function CapOf(p: Pass, t: Tally): int {
    match t
    case HostActive => p.policy.maxQueuePerHost
    case GlobalQueued => p.policy.maxQueueTotal
    case AutonomousHour => p.policy.autonomousMaxQueuedPerHour
    case ExecuteHour => p.policy.maxExecutePerHour
  }

  /** The local variables of a pass. */
  datatype Counters = Counters(activeForHost: nat, queuedGlobal: nat, queuedAutoHour: nat, executeInHour: nat,
                               queuedNow: nat)

  function CounterOf(c: Counters, t: Tally): nat {
    match t
    case HostActive => c.activeForHost
    case GlobalQueued => c.queuedGlobal
    case AutonomousHour => c.queuedAutoHour
    case ExecuteHour => c.executeInHour
  }

  function Bump(c: Counters): Counters {
    Counters(c.activeForHost + 1, c.queuedGlobal + 1, c.queuedAutoHour + 1, c.executeInHour + 1, c.queuedNow + 1)
  }

  /** The most recent request for a run of this action on this host. */
  function LatestRequest(rows: seq<Run>, host: string, action: string): (at: Option<int>)
    ensures at.Some? ==>
              exists i | 0 <= i < |rows| :: SameTarget(rows[i], host, action) && rows[i].requestedAt == at.value
    ensures forall i | 0 <= i < |rows| && SameTarget(rows[i], host, action) ::
              at.Some? && rows[i].requestedAt <= at.value
  {
    if rows == [] then None
    else
      var n := |rows| - 1;
      var before := LatestRequest(rows[..n], host, action);
      if !SameTarget(rows[n], host, action) then before
      else if before.Some? && before.value >= rows[n].requestedAt then before
      else Some(rows[n].requestedAt)
  }

  // ---------------------------------------------------------------- one action

  function SelectionFor(p: Pass, a: PlanAction): Selection {
    SelectCanary(Utf16(p.host), Utf16(a.id), CanaryPercent(a.tier, p.policy.canaryRolloutPercent))
  }

  // ---------------------------------------------------------------- what is asked of the table and the host

  predicate TargetActive(rows: seq<Run>, host: string, action: string) {
    exists i | 0 <= i < |rows| ::
      (rows[i].state == Queued || rows[i].state == Running) && rows[i].hostId == host && rows[i].actionId == action
  }

  /** Run i is the latest request for the target. */
  predicate IsLatest(rows: seq<Run>, host: string, action: string, i: nat) {
    && i < |rows| && rows[i].hostId == host && rows[i].actionId == action
    && forall j | 0 <= j < |rows| && rows[j].hostId == host && rows[j].actionId == action ::
         rows[j].requestedAt <= rows[i].requestedAt
  }

  /** The latest request for the target lies so many minutes back or less, and not in the future. */
  ghost predicate RequestedLately(rows: seq<Run>, host: string, action: string, minutes: int, now: int) {
    minutes > 0
    && exists i: nat :: IsLatest(rows, host, action, i) && 0 <= now - rows[i].requestedAt <= minutes * 60 * 1000
  }

  lemma CoolsDownExactly(p: Pass, rows: seq<Run>, a: PlanAction, now: int)
    ensures CoolsDown(p, rows, a, now) <==>
              RequestedLately(rows, p.host, a.id, p.policy.executeCooldownMinutes, now)
  {
    var latest := LatestRequest(rows, p.host, a.id);
    if latest.Some? {
      var i :| 0 <= i < |rows| && SameTarget(rows[i], p.host, a.id) && rows[i].requestedAt == latest.value;
      assert IsLatest(rows, p.host, a.id, i);
    }
  }

  /** The host takes part in the rollout of the action: by the FNV-1a bucket of both names. */
  predicate InRollout(p: Pass, a: PlanAction) {
    var seed := Utf16(p.host) + [58, 58] + Utf16(a.id);
    TakesPart(a.tier, Fnv1a(seed, |seed|) % 100, p.policy.canaryRolloutPercent)
  }

  lemma RolloutExactly(p: Pass, a: PlanAction)
    ensures SelectionFor(p, a).selected <==> InRollout(p, a)
  {
    SelectionIsExact(Utf16(p.host), Utf16(a.id), a.tier, p.policy.canaryRolloutPercent);
  }

  predicate CoolsDown(p: Pass, rows: seq<Run>, a: PlanAction, now: int) {
    var latest := LatestRequest(rows, p.host, a.id);
    && latest.Some? && p.policy.executeCooldownMinutes > 0
    && WithinMinutes(latest.value, p.policy.executeCooldownMinutes, now)
  }

  predicate NeedsApproval(p: Pass, a: PlanAction) {
    a.tier == RiskyManual || RiskRequiresApproval(a.risk, p.policy.approvalRiskThreshold)
  }

  /** The checks on the counters and the tier, in order. */
  function CounterRefusal(p: Pass, c: Counters, a: PlanAction): Option<Reason> {
    if c.queuedNow >= p.policy.autonomousMaxQueuedPerCycle then Some(CycleLimit)
    else if a.tier == Observe then Some(ObserveOnly)
    else if !AutoExecutable(a.tier, p.policy.autonomousMaxTier) then Some(TierTooHigh)
    else if c.queuedAutoHour >= p.policy.autonomousMaxQueuedPerHour then Some(AutonomousHourLimit)
    else if c.executeInHour >= p.policy.maxExecutePerHour then Some(ExecuteHourLimit)
    else if c.activeForHost >= p.policy.maxQueuePerHost then Some(HostBacklog)
    else if c.queuedGlobal >= p.policy.maxQueueTotal then Some(GlobalBacklog)
    else None
  }

  /** The checks on the action itself, in order. */
  function ActionRefusal(p: Pass, a: PlanAction): Option<Reason> {
    if Guard.Issues(a.commands, p.guard) != [] then Some(GuardBlocked)
    else if !SelectionFor(p, a).selected then Some(OutsideCanary)
    else if p.policy.canaryRequireChecks && CommandList(a.canaryChecks) == [] then Some(NoCanaryChecks)
    else None
  }

  /** All checks in order; active runs and the latest request are looked up one after the other. */
  function Refusal(p: Pass, c: Counters, rows: seq<Run>, later: seq<Run>, a: PlanAction, now: int): Option<Reason> {
    var refusal := CounterRefusal(p, c, a);
    if refusal.Some? then refusal
    else if ActiveFor(rows, p.host, a.id) then Some(AlreadyActive)
    else if CoolsDown(p, later, a, now) then Some(CoolingDown)
    else ActionRefusal(p, a)
  }

  function RiskText(r: Risk): string {
    match r case Low => "low" case Medium => "medium" case High => "high"
  }

  function TierText(t: Tier): string {
    match t case Observe => "observe" case SafeAuto => "safe_auto" case GuardedAuto => "guarded_auto"
            case RiskyManual => "risky_manual"
  }

  function ThresholdText(t: Threshold): string {
    match t case NoThreshold => "none" case AtLeast(risk) => RiskText(risk)
  }

  /** approvalReasonForAction */
  function ApprovalReason(p: Pass, a: PlanAction): string {
    if a.tier == RiskyManual then "Risky tier action requires manual approval before execute."
    else "Action risk '" + RiskText(a.risk) + "' crossed approval threshold '"
         + ThresholdText(p.policy.approvalRiskThreshold) + "'."
  }

  function NewPayload(p: Pass, a: PlanAction, now: int): Payload {
    var required := NeedsApproval(p, a);
    var rollback := CommandList(a.rollbackCommands);
    var rollbackEnabled := p.policy.autoRollback && rollback != [];
    var selection := SelectionFor(p, a);
    var checks := CommandList(a.canaryChecks);
    Payload(a.id, a.commands, a.sourceCodes, a.rollbackNotes, p.profile,
      QueueMeta(0, p.policy.maxRetryAttempts, None, None, None, false, None, None,
        ApprovalMeta(required, if required then Pending else NoApproval,
                     if required then Some(ApprovalReason(p, a)) else None,
                     if required then Some(now) else None, None, None, None),
        CanaryMeta(checks != [], CanaryPercent(a.tier, p.policy.canaryRolloutPercent), selection.bucket,
                   selection.selected, checks, None, None, None),
        RollbackMeta(rollbackEnabled, false, None, if rollbackEnabled then rollback else [], None, None),
        true,
        Some(var t := Trim(p.reason); if t == "" then "host_status_ingest" else t),
        Some(TierText(a.tier))))
  }

  /** What the planner creates is fit for the queue: it starts fresh, and it waits for an operator
      exactly when the tier or the risk calls for one. */
  lemma NewRunsAreFresh(p: Pass, a: PlanAction, now: int, at: int)
    requires InRange(p.policy)
    ensures var q := NewPayload(p, a, now).queue;
            && FreshQueue(q) && FreshParams(Readable(NewPayload(p, a, now)))
            && (Ready(q, at) <==> a.tier != RiskyManual && !RiskReaches(a.risk, p.policy.approvalRiskThreshold))
  {
    RanksAreExact(a.tier, p.policy.autonomousMaxTier, a.risk, p.policy.approvalRiskThreshold);
  }

  // ---------------------------------------------------------------- the loop

  /** One turn of the loop: what others do before it looks for active runs, the action, what they do
      before it looks for the latest request, the clock, and what they do before its create. */
  datatype Turn = Turn(gap: seq<Step>, action: PlanAction, mid: seq<Step>, now: int, late: seq<Step>)

  datatype Progress = Progress(table: System, counters: Counters, decisions: seq<Decision>, approvalPending: nat)

  /** What a pass decides about one action by itself, and makes of it. */
  datatype Rules = Rules(
    host: string,
    refusal: (Counters, seq<Run>, seq<Run>, PlanAction, int) -> Option<Reason>,
    payload: (PlanAction, int) -> Payload,
    needsApproval: PlanAction -> bool,
    selection: PlanAction -> Selection)

  function RulesOf(p: Pass): Rules {
    Rules(p.host,
          (c: Counters, rows: seq<Run>, later: seq<Run>, a: PlanAction, now: int) => Refusal(p, c, rows, later, a, now),
          (a: PlanAction, now: int) => NewPayload(p, a, now),
          (a: PlanAction) => NeedsApproval(p, a),
          (a: PlanAction) => SelectionFor(p, a))
  }

  /** The table as a turn reads it first and second, and as it writes to it or leaves it. */
  function Seen(table: System, t: Turn): System { Play(table, t.gap) }

  function Later(table: System, t: Turn): System { Play(Seen(table, t), t.mid) }

  function Written(table: System, t: Turn): System { Play(Later(table, t), t.late) }

  function CreateStep(rules: Rules, a: PlanAction, now: int): Step {
    Enqueue(rules.host, a.id, now, Readable(rules.payload(a, now)), Untested)
  }

  /** The verdict on one action, and what becomes of it. */
  function TakeTurn(rules: Rules, s: Progress, t: Turn): Progress {
    var refusal := rules.refusal(s.counters, Seen(s.table, t).rows, Later(s.table, t).rows, t.action, t.now);
    var written := Written(s.table, t);
    if refusal.Some? then s.(table := written, decisions := s.decisions + [Skipped(t.action.id, refusal.value)])
    else
      var required := rules.needsApproval(t.action);
      Progress(Apply(written, CreateStep(rules, t.action, t.now)),
               Bump(s.counters),
               s.decisions + [Enqueued(t.action.id, |written.rows|, required, rules.selection(t.action))],
               s.approvalPending + (if required then 1 else 0))
  }

  /** How far a pass is after its first n turns. */
  function After(rules: Rules, first: Progress, turns: seq<Turn>, n: nat): Progress
    requires n <= |turns|
  {
    if n == 0 then first else TakeTurn(rules, After(rules, first, turns, n - 1), turns[n - 1])
  }

  function PassUpTo(p: Pass, first: Progress, turns: seq<Turn>, n: nat): Progress
    requires n <= |turns|
  {
    After(RulesOf(p), first, turns, n)
  }

  /** What others do between the four counts a pass starts from. */
  datatype Counting = Counting(first: seq<Step>, second: seq<Step>, third: seq<Step>)

  /** The table at the moment of one of the counts. */
  function CountedAt(table: System, g: Counting, t: Tally): System {
    match t
    case HostActive => table
    case GlobalQueued => Play(table, g.first)
    case AutonomousHour => Play(Play(table, g.first), g.second)
    case ExecuteHour => Play(Play(Play(table, g.first), g.second), g.third)
  }

  function FirstCount(p: Pass, table: System, g: Counting, t: Tally): nat {
    Count(p, CountedAt(table, g, t).rows, t)
  }

  /** The pass has counted, and decided nothing yet. */
  function Opening(p: Pass, table: System, g: Counting): Progress {
    Progress(CountedAt(table, g, ExecuteHour),
             Counters(FirstCount(p, table, g, HostActive), FirstCount(p, table, g, GlobalQueued),
                      FirstCount(p, table, g, AutonomousHour), FirstCount(p, table, g, ExecuteHour), 0),
             [], 0)
  }

  predicate Undecided(first: Progress) {
    first.decisions == [] && first.counters.queuedNow == first.approvalPending == 0
  }

  ghost function SkippedAt(decisions: seq<Decision>): set<nat> {
    set i: nat | i < |decisions| && decisions[i].Skipped?
  }

  /** The queued actions that wait for an operator. */
  ghost function AwaitingAt(decisions: seq<Decision>): set<nat> {
    set i: nat | i < |decisions| && decisions[i].Enqueued? && decisions[i].approvalRequired
  }

  lemma SkippedAppend(decisions: seq<Decision>, d: Decision)
    ensures |SkippedAt(decisions + [d])| == |SkippedAt(decisions)| + (if d.Skipped? then 1 else 0)
  {
    var n := |decisions|;
    if d.Skipped? {
      assert SkippedAt(decisions + [d]) == SkippedAt(decisions) + {n};
    } else {
      assert SkippedAt(decisions + [d]) == SkippedAt(decisions);
    }
  }

  lemma AwaitingAppend(decisions: seq<Decision>, d: Decision)
    ensures |AwaitingAt(decisions + [d])|
         == |AwaitingAt(decisions)| + (if d.Enqueued? && d.approvalRequired then 1 else 0)
  {
    var n := |decisions|;
    if d.Enqueued? && d.approvalRequired {
      assert AwaitingAt(decisions + [d]) == AwaitingAt(decisions) + {n};
    } else {
      assert AwaitingAt(decisions + [d]) == AwaitingAt(decisions);
    }
  }

  lemma OneMoreDecision(rules: Rules, s: Progress, t: Turn)
    ensures var next := TakeTurn(rules, s, t);
            && |next.decisions| == |s.decisions| + 1 && s.decisions <= next.decisions
            && next.counters.queuedNow + |SkippedAt(next.decisions)|
               == s.counters.queuedNow + |SkippedAt(s.decisions)| + 1
            && next.approvalPending - |AwaitingAt(next.decisions)| == s.approvalPending - |AwaitingAt(s.decisions)|
  {
    var d := TakeTurn(rules, s, t).decisions[|s.decisions|];
    SkippedAppend(s.decisions, d);
    AwaitingAppend(s.decisions, d);
  }

  /** A turn of this kind keeps the property. */
  ghost predicate Keeps(rules: Rules, good: Progress -> bool, kind: Turn -> bool) {
    forall s: Progress, t: Turn :: good(s) && kind(t) ==> good(TakeTurn(rules, s, t))
  }

  lemma KeptByTurn(rules: Rules, good: Progress -> bool, kind: Turn -> bool, s: Progress, t: Turn, next: Progress)
    requires Keeps(rules, good, kind) && good(s) && kind(t) && next == TakeTurn(rules, s, t)
    ensures good(next)
  {
    assert good(s) && kind(t) ==> good(TakeTurn(rules, s, t));
  }

  lemma {:induction false} KeptThroughout(rules: Rules, good: Progress -> bool, kind: Turn -> bool, first: Progress,
                                          turns: seq<Turn>, i: nat, n: nat)
    requires i <= n <= |turns| && Keeps(rules, good, kind) && good(After(rules, first, turns, i))
    requires forall k | 0 <= k < |turns| :: kind(turns[k])
    ensures good(After(rules, first, turns, n))
  {
    if i < n {
      KeptThroughout(rules, good, kind, first, turns, i, n - 1);
      KeptByTurn(rules, good, kind, After(rules, first, turns, n - 1), turns[n - 1], After(rules, first, turns, n));
    }
  }

  lemma OneMore(rules: Rules, s: Progress, t: Turn, next: Progress)
    requires next == TakeTurn(rules, s, t)
    ensures |next.decisions| == |s.decisions| + 1
  {
  }

  lemma {:induction false} OneDecisionEach(rules: Rules, first: Progress, turns: seq<Turn>, n: nat)
    requires n <= |turns|
    ensures |After(rules, first, turns, n).decisions| == |first.decisions| + n
  {
    if n > 0 {
      OneDecisionEach(rules, first, turns, n - 1);
      OneMore(rules, After(rules, first, turns, n - 1), turns[n - 1], After(rules, first, turns, n));
    }
  }

  /** Whatever the checks are and whatever others do: one decision per action, every action is either
      queued or skipped, and the report of pending approvals counts those that wait for an operator. */
  lemma OneDecisionPerAction(rules: Rules, first: Progress, turns: seq<Turn>, n: nat)
    requires n <= |turns| && Undecided(first)
    ensures var s := After(rules, first, turns, n);
            && |s.decisions| == n
            && s.counters.queuedNow + |SkippedAt(s.decisions)| == n
            && s.approvalPending == |AwaitingAt(s.decisions)|
  {
    var good := (s: Progress) => s.counters.queuedNow + |SkippedAt(s.decisions)| == |s.decisions|
                                 && s.approvalPending == |AwaitingAt(s.decisions)|;
    NothingDecided(first);
    forall s: Progress, t: Turn | good(s) ensures good(TakeTurn(rules, s, t)) { OneMoreDecision(rules, s, t); }
    KeptThroughout(rules, good, (t: Turn) => true, first, turns, 0, n);
    OneDecisionEach(rules, first, turns, n);
  }

  lemma NothingDecided(first: Progress)
    requires Undecided(first)
    ensures |SkippedAt(first.decisions)| == |AwaitingAt(first.decisions)| == 0
  {
    assert SkippedAt(first.decisions) == {} && AwaitingAt(first.decisions) == {};
  }

  lemma DecisionsStand(rules: Rules, first: Progress, turns: seq<Turn>, i: nat, n: nat)
    requires i <= n <= |turns|
    ensures After(rules, first, turns, i).decisions <= After(rules, first, turns, n).decisions
  {
    var given := After(rules, first, turns, i).decisions;
    KeptThroughout(rules, (s: Progress) => given <= s.decisions, (t: Turn) => true, first, turns, i, n);
  }

  lemma DecisionStands(rules: Rules, first: Progress, turns: seq<Turn>, i: nat, n: nat)
    requires i < n <= |turns| && Undecided(first)
    ensures var next, last := After(rules, first, turns, i + 1), After(rules, first, turns, n);
            && |After(rules, first, turns, i).decisions| == i < |last.decisions| && i < |next.decisions|
            && last.decisions[i] == next.decisions[i]
  {
    OneDecisionEach(rules, first, turns, i);
    OneDecisionEach(rules, first, turns, i + 1);
    DecisionsStand(rules, first, turns, i + 1, n);
  }

  // ---------------------------------------------------------------- the table moves by protocol steps

  /** All that others do during a turn. */
  function Meanwhile(t: Turn): seq<Step> { t.gap + t.mid + t.late }

  lemma WrittenIsMeanwhile(table: System, t: Turn)
    ensures Written(table, t) == Play(table, Meanwhile(t))
  {
    DrainSafety.PlayConcat(table, t.gap, t.mid);
    DrainSafety.PlayConcat(table, t.gap + t.mid, t.late);
  }

  lemma TurnMovesByProtocol(rules: Rules, s: Progress, t: Turn) returns (steps: seq<Step>)
    ensures TakeTurn(rules, s, t).table == Play(s.table, steps)
  {
    WrittenIsMeanwhile(s.table, t);
    steps := Meanwhile(t);
    if rules.refusal(s.counters, Seen(s.table, t).rows, Later(s.table, t).rows, t.action, t.now).None? {
      var create := CreateStep(rules, t.action, t.now);
      DrainSafety.PlayOne(s.table, steps, create);
      steps := steps + [create];
    }
  }

  lemma OneMoreTurn(start: System, before: seq<Step>, rules: Rules, s: Progress, t: Turn) returns (more: seq<Step>)
    requires s.table == Play(start, before)
    ensures TakeTurn(rules, s, t).table == Play(start, more)
  {
    var last := TurnMovesByProtocol(rules, s, t);
    DrainSafety.PlayConcat(start, before, last);
    more := before + last;
  }

  /** Between any two turns the table moves by steps of the queue's protocol only. */
  lemma {:induction false} PassMovesByProtocol(rules: Rules, first: Progress, turns: seq<Turn>, i: nat, n: nat)
    returns (more: seq<Step>)
    requires i <= n <= |turns|
    ensures After(rules, first, turns, n).table == Play(After(rules, first, turns, i).table, more)
  {
    if i == n {
      more := [];
    } else {
      var before := PassMovesByProtocol(rules, first, turns, i, n - 1);
      more := OneMoreTurn(After(rules, first, turns, i).table, before, rules, After(rules, first, turns, n - 1),
                          turns[n - 1]);
    }
  }

  lemma TurnKeepsInv(rules: Rules, s: Progress, t: Turn)
    requires Inv(s.table)
    ensures Inv(TakeTurn(rules, s, t).table)
  {
    var steps := TurnMovesByProtocol(rules, s, t);
    DrainSafety.PlayKeepsInv(s.table, steps);
  }

  lemma PassKeepsInv(rules: Rules, first: Progress, turns: seq<Turn>, n: nat)
    requires n <= |turns| && Inv(first.table)
    ensures Inv(After(rules, first, turns, n).table)
  {
    var more := PassMovesByProtocol(rules, first, turns, 0, n);
    DrainSafety.PlayKeepsInv(first.table, more);
  }

  lemma TurnTablesKeepInv(table: System, t: Turn)
    requires Inv(table)
    ensures Inv(Seen(table, t)) && Inv(Later(table, t)) && Inv(Written(table, t))
  {
    DrainSafety.PlayKeepsInv(table, t.gap);
    DrainSafety.PlayKeepsInv(Seen(table, t), t.mid);
    DrainSafety.PlayKeepsInv(Later(table, t), t.late);
  }

  lemma OpeningKeepsInv(table: System, g: Counting, t: Tally)
    requires Inv(table)
    ensures Inv(CountedAt(table, g, t))
  {
    DrainSafety.PlayKeepsInv(table, g.first);
    DrainSafety.PlayKeepsInv(Play(table, g.first), g.second);
    DrainSafety.PlayKeepsInv(Play(Play(table, g.first), g.second), g.third);
  }

  // ---------------------------------------------------------------- the decisions are the right ones

  /** What the planner demands before it queues an action, as a whole. */
  ghost predicate Admissible(p: Pass, c: Counters, rows: seq<Run>, later: seq<Run>, a: PlanAction, now: int) {
    && TierWithin(a.tier, p.policy.autonomousMaxTier)
    && c.queuedNow < p.policy.autonomousMaxQueuedPerCycle
    && c.activeForHost < p.policy.maxQueuePerHost && c.queuedGlobal < p.policy.maxQueueTotal
    && c.queuedAutoHour < p.policy.autonomousMaxQueuedPerHour && c.executeInHour < p.policy.maxExecutePerHour
    && !TargetActive(rows, p.host, a.id)
    && !RequestedLately(later, p.host, a.id, p.policy.executeCooldownMinutes, now)
    && Guard.Accepted(a.commands, p.guard)
    && InRollout(p, a)
    && (p.policy.canaryRequireChecks ==> SomeFilled(a.canaryChecks))
  }

  ghost predicate Holds(reason: Reason, p: Pass, c: Counters, rows: seq<Run>, later: seq<Run>, a: PlanAction, now: int)
  {
    match reason
    case CycleLimit => c.queuedNow >= p.policy.autonomousMaxQueuedPerCycle
    case ObserveOnly => a.tier == Observe
    case TierTooHigh => a.tier != Observe && !TierWithin(a.tier, p.policy.autonomousMaxTier)
    case AutonomousHourLimit => c.queuedAutoHour >= p.policy.autonomousMaxQueuedPerHour
    case ExecuteHourLimit => c.executeInHour >= p.policy.maxExecutePerHour
    case HostBacklog => c.activeForHost >= p.policy.maxQueuePerHost
    case GlobalBacklog => c.queuedGlobal >= p.policy.maxQueueTotal
    case AlreadyActive => TargetActive(rows, p.host, a.id)
    case CoolingDown => RequestedLately(later, p.host, a.id, p.policy.executeCooldownMinutes, now)
    case GuardBlocked => !Guard.Accepted(a.commands, p.guard)
    case OutsideCanary => !InRollout(p, a)
    case NoCanaryChecks => p.policy.canaryRequireChecks && !SomeFilled(a.canaryChecks)
  }

  /** The place of a reason in the order of the checks. */
  function Place(reason: Reason): nat {
    match reason
    case CycleLimit => 0 case ObserveOnly => 1 case TierTooHigh => 2 case AutonomousHourLimit => 3
    case ExecuteHourLimit => 4 case HostBacklog => 5 case GlobalBacklog => 6 case AlreadyActive => 7
    case CoolingDown => 8 case GuardBlocked => 9 case OutsideCanary => 10 case NoCanaryChecks => 11
  }

  /** The reason holds, and none of the reasons before it does. */
  ghost predicate HoldsFirst(reason: Reason, p: Pass, c: Counters, rows: seq<Run>, later: seq<Run>, a: PlanAction,
                             now: int) {
    && Holds(reason, p, c, rows, later, a, now)
    && forall other: Reason :: Place(other) < Place(reason) ==> !Holds(other, p, c, rows, later, a, now)
  }

  lemma CounterRefusalIsExact(p: Pass, c: Counters, rows: seq<Run>, later: seq<Run>, a: PlanAction, now: int)
    ensures var r := CounterRefusal(p, c, a);
            && (r == None <==> forall q: Reason :: Place(q) < 7 ==> !Holds(q, p, c, rows, later, a, now))
            && (r.Some? ==> HoldsFirst(r.value, p, c, rows, later, a, now))
  {
    RanksAreExact(a.tier, p.policy.autonomousMaxTier, a.risk, p.policy.approvalRiskThreshold);
    var r := CounterRefusal(p, c, a);
    if r.Some? { assert Holds(r.value, p, c, rows, later, a, now) && Place(r.value) < 7; }
  }

  lemma ActionRefusalIsExact(p: Pass, a: PlanAction)
    ensures ActionRefusal(p, a) ==
              if !Guard.Accepted(a.commands, p.guard) then Some(GuardBlocked)
              else if !InRollout(p, a) then Some(OutsideCanary)
              else if p.policy.canaryRequireChecks && !SomeFilled(a.canaryChecks) then Some(NoCanaryChecks)
              else None
  {
    Guard.GuardIsExact(a.commands, p.guard);
    RolloutExactly(p, a);
    CommandListIsCleaned(a.canaryChecks);
  }

  lemma AdmissibleExactly(p: Pass, c: Counters, rows: seq<Run>, later: seq<Run>, a: PlanAction, now: int)
    ensures Admissible(p, c, rows, later, a, now) <==>
              forall q: Reason :: Place(q) < 12 ==> !Holds(q, p, c, rows, later, a, now)
  {
    assert Place(CycleLimit) < 12 && Place(ObserveOnly) < 12 && Place(TierTooHigh) < 12
           && Place(AutonomousHourLimit) < 12 && Place(ExecuteHourLimit) < 12 && Place(HostBacklog) < 12
           && Place(GlobalBacklog) < 12 && Place(AlreadyActive) < 12 && Place(CoolingDown) < 12
           && Place(GuardBlocked) < 12 && Place(OutsideCanary) < 12 && Place(NoCanaryChecks) < 12;
  }

  /** An action passes the checks exactly when it meets every demand, and the reason given otherwise is
      the first in their order that holds. */
  lemma RefusalIsExact(p: Pass, c: Counters, rows: seq<Run>, later: seq<Run>, a: PlanAction, now: int)
    ensures Refusal(p, c, rows, later, a, now) == None <==> Admissible(p, c, rows, later, a, now)
    ensures var r := Refusal(p, c, rows, later, a, now); r.Some? ==> HoldsFirst(r.value, p, c, rows, later, a, now)
  {
    CounterRefusalIsExact(p, c, rows, later, a, now);
    ActionRefusalIsExact(p, a);
    ActiveForExactly(rows, p.host, a.id);
    CoolsDownExactly(p, later, a, now);
    AdmissibleExactly(p, c, rows, later, a, now);
    var r := Refusal(p, c, rows, later, a, now);
    if r.Some? { assert Holds(r.value, p, c, rows, later, a, now); }
  }

  lemma ActiveForExactly(rows: seq<Run>, host: string, action: string)
    ensures ActiveFor(rows, host, action) <==> TargetActive(rows, host, action)
  {
    if ActiveFor(rows, host, action) {
      var i :| 0 <= i < |rows| && Active(rows[i]) && SameTarget(rows[i], host, action);
      assert rows[i].state == Queued || rows[i].state == Running;
    }
    if TargetActive(rows, host, action) {
      var i :| 0 <= i < |rows| && (rows[i].state == Queued || rows[i].state == Running)
               && rows[i].hostId == host && rows[i].actionId == action;
      assert Active(rows[i]) && SameTarget(rows[i], host, action);
    }
  }

  function RunFor(p: Pass, a: PlanAction, now: int): Run {
    NewRun(p.host, a.id, now, Readable(NewPayload(p, a, now)))
  }

  /** The rollback commands are those of the action, and enabled exactly when the policy wants rollbacks
      and there are any. */
  ghost predicate RollbackStored(autoRollback: bool, given: seq<string>, r: RollbackMeta) {
    && (r.enabled <==> autoRollback && SomeFilled(given))
    && (if r.enabled then Cleaned(given, r.commands, 20) else r.commands == [])
    && !r.attempted && r.succeeded == None && r.lastRunAt == None && r.error == None
  }

  /** The canary checks are those of the action, and enabled exactly when there are any. */
  ghost predicate ChecksStored(given: seq<string>, c: CanaryMeta) {
    && (c.enabled <==> SomeFilled(given)) && Cleaned(given, c.checks, 20)
    && c.lastCheckedAt == None && c.passed == None && c.error == None
  }

  /** The action is stored as it is, under its host, and nothing has happened to it yet. */
  ghost predicate ActionStored(p: Pass, a: PlanAction, now: int, r: Run) {
    && r.hostId == p.host && r.actionId == a.id
    && r.state == Queued && r.requestedAt == now && r.startedAt == None && r.finishedAt == None
    && r.params.Readable?
    && (var payload := r.params.payload;
        var q := payload.queue;
        && payload.actionId == a.id && payload.commands == a.commands && payload.sourceCodes == a.sourceCodes
        && payload.rollbackNotes == a.rollbackNotes && payload.profile == p.profile
        && q.attempts == 0 && q.maxAttempts == p.policy.maxRetryAttempts
        && q.nextAttemptAt == None && q.lastAttemptAt == None && q.lastError == None
        && !q.dlq && q.dlqReason == None && q.replayOfRunId == None
        && RollbackStored(p.policy.autoRollback, a.rollbackCommands, q.rollback)
        && ChecksStored(a.canaryChecks, q.canary)
        && q.autoTier == Some(match a.tier
                              case Observe => "observe" case SafeAuto => "safe_auto"
                              case GuardedAuto => "guarded_auto" case RiskyManual => "risky_manual"))
  }

  predicate MustBeApproved(p: Pass, a: PlanAction) {
    a.tier == RiskyManual || RiskReaches(a.risk, p.policy.approvalRiskThreshold)
  }

  /** The row that an action let through by the planner becomes. */
  ghost predicate Planned(p: Pass, a: PlanAction, now: int, r: Run) {
    && ActionStored(p, a, now, r)
    && (var q := r.params.payload.queue;
        && (q.approval.required <==> MustBeApproved(p, a))
        && q.approval.status == (if q.approval.required then Pending else NoApproval)
        && q.approval.requestedAt == (if q.approval.required then Some(now) else None)
        && (q.approval.reason.Some? <==> q.approval.required)
        && q.approval.requestedByUserId == q.approval.approvedByUserId == None && q.approval.approvedAt == None
        && q.canary.selected
        && q.canary.rolloutPercent == (if a.tier == SafeAuto then 100
                                       else Max(1, Min(p.policy.canaryRolloutPercent, 100)))
        && q.canary.bucket < q.canary.rolloutPercent
        && q.autoQueued && q.autoReason == Some(if Filled(p.reason) then Trim(p.reason) else "host_status_ingest"))
  }

  lemma RollbackIsStored(p: Pass, a: PlanAction, now: int)
    ensures RollbackStored(p.policy.autoRollback, a.rollbackCommands, NewPayload(p, a, now).queue.rollback)
  {
    CommandListIsCleaned(a.rollbackCommands);
  }

  lemma ChecksAreStored(p: Pass, a: PlanAction, now: int)
    ensures ChecksStored(a.canaryChecks, NewPayload(p, a, now).queue.canary)
  {
    CommandListIsCleaned(a.canaryChecks);
  }

  /** What the planner creates is what was planned. */
  lemma RunIsPlanned(p: Pass, a: PlanAction, now: int)
    requires TierWithin(a.tier, p.policy.autonomousMaxTier) && InRollout(p, a)
    ensures Planned(p, a, now, RunFor(p, a, now))
  {
    RollbackIsStored(p, a, now);
    ChecksAreStored(p, a, now);
    RanksAreExact(a.tier, p.policy.autonomousMaxTier, a.risk, p.policy.approvalRiskThreshold);
    SelectionIsExact(Utf16(p.host), Utf16(a.id), a.tier, p.policy.canaryRolloutPercent);
    FilledIsKept(p.reason);
  }

  lemma FreshCreate(p: Pass, table: System, a: PlanAction, now: int)
    requires InRange(p.policy)
    ensures Apply(table, Enqueue(p.host, a.id, now, Readable(NewPayload(p, a, now)), Untested)).rows
         == table.rows + [RunFor(p, a, now)]
  {
    NewRunsAreFresh(p, a, now, now);
  }

  predicate Admits(p: Pass, s: Progress, t: Turn) {
    Refusal(p, s.counters, Seen(s.table, t).rows, Later(s.table, t).rows, t.action, t.now) == None
  }

  /** What a turn makes of the table and the counters; the create of an action let through always
      takes hold. */
  lemma OneTurn(p: Pass, s: Progress, t: Turn)
    requires InRange(p.policy)
    ensures var next, written := TakeTurn(RulesOf(p), s, t), Written(s.table, t);
            if Admits(p, s, t) then
              && next.table.rows == written.rows + [RunFor(p, t.action, t.now)]
              && next.counters == Bump(s.counters)
              && next.decisions == s.decisions + [Enqueued(t.action.id, |written.rows|, NeedsApproval(p, t.action),
                                                           SelectionFor(p, t.action))]
            else next.table == written && next.counters == s.counters
  {
    FreshCreate(p, Written(s.table, t), t.action, t.now);
  }

  /** The decision is the right one for what the turn sees: a skipped action was refused for a true
      reason and leaves the table as the others made it, and an action that meets every demand is
      appended to it as it was planned. */
  ghost predicate Right(p: Pass, s: Progress, t: Turn, d: Decision) {
    var rows, later := Seen(s.table, t).rows, Later(s.table, t).rows;
    var written, next := Written(s.table, t).rows, TakeTurn(RulesOf(p), s, t).table.rows;
    match d
    case Skipped(id, reason) =>
      && id == t.action.id && !Admissible(p, s.counters, rows, later, t.action, t.now)
      && HoldsFirst(reason, p, s.counters, rows, later, t.action, t.now)
      && next == written
    case Enqueued(id, runId, required, selection) =>
      && id == t.action.id && Admissible(p, s.counters, rows, later, t.action, t.now)
      && runId == |written| && |next| == |written| + 1 && next[..runId] == written
      && Planned(p, t.action, t.now, next[runId])
      && (required <==> MustBeApproved(p, t.action))
      && selection == Selection(next[runId].params.payload.queue.canary.bucket, true)
  }

  /** The run of a queued action is still there, and still what was planned. */
  ghost predicate RunStands(p: Pass, t: Turn, d: Decision, table: System) {
    d.Enqueued? ==>
      && d.runId < |table.rows|
      && exists r: Run :: Planned(p, t.action, t.now, r) && DrainTheorems.Lasts(r, table.rows[d.runId])
  }

  lemma RightRunStands(p: Pass, s: Progress, t: Turn, d: Decision, table: System, more: seq<Step>)
    requires Right(p, s, t, d) && table == TakeTurn(RulesOf(p), s, t).table && Inv(table)
    ensures RunStands(p, t, d, Play(table, more))
  {
    if d.Enqueued? { DrainTheorems.HistoryExtends(table, more, d.runId); }
  }

  lemma DecisionIsRight(p: Pass, s: Progress, t: Turn)
    requires InRange(p.policy)
    ensures var next := TakeTurn(RulesOf(p), s, t);
            |next.decisions| == |s.decisions| + 1 && Right(p, s, t, next.decisions[|s.decisions|])
  {
    RefusalIsExact(p, s.counters, Seen(s.table, t).rows, Later(s.table, t).rows, t.action, t.now);
    OneTurn(p, s, t);
    if Admits(p, s, t) { RunIsPlanned(p, t.action, t.now); }
    RanksAreExact(t.action.tier, p.policy.autonomousMaxTier, t.action.risk, p.policy.approvalRiskThreshold);
  }

  /** The decision is right, and its run is still there. */
  ghost predicate Exact(p: Pass, s: Progress, t: Turn, d: Decision, table: System) {
    Right(p, s, t, d) && RunStands(p, t, d, table)
  }

  lemma DecisionIsExact(p: Pass, s: Progress, t: Turn, next: Progress, last: Progress, more: seq<Step>)
    requires InRange(p.policy) && next == TakeTurn(RulesOf(p), s, t) && Inv(next.table)
    requires last.table == Play(next.table, more)
    requires |s.decisions| < |last.decisions| && |s.decisions| < |next.decisions|
    requires last.decisions[|s.decisions|] == next.decisions[|s.decisions|]
    ensures Exact(p, s, t, last.decisions[|s.decisions|], last.table)
  {
    DecisionIsRight(p, s, t);
    RightRunStands(p, s, t, last.decisions[|s.decisions|], next.table, more);
  }

  /** Decision i stands as it was made: the action is queued exactly when it was admissible by the
      counters and in the table as they were when it was judged, its run is new and lasts, and the
      reason given for a skipped action was true. */
  lemma DecisionsAreExact(p: Pass, first: Progress, turns: seq<Turn>, n: nat, i: nat)
    requires i < n <= |turns| && InRange(p.policy) && Inv(first.table) && Undecided(first)
    ensures var last := PassUpTo(p, first, turns, n);
            i < |last.decisions| && Exact(p, PassUpTo(p, first, turns, i), turns[i], last.decisions[i], last.table)
  {
    DecisionStands(RulesOf(p), first, turns, i, n);
    PassKeepsInv(RulesOf(p), first, turns, i + 1);
    var more := PassMovesByProtocol(RulesOf(p), first, turns, i + 1, n);
    DecisionIsExact(p, PassUpTo(p, first, turns, i), turns[i], PassUpTo(p, first, turns, i + 1),
                    PassUpTo(p, first, turns, n), more);
  }

  /** A queued action starts no sooner than the cooldown after every request for it that the turn can
      see, unless one of those requests is dated in the future. */
  lemma CooldownIsKept(p: Pass, c: Counters, rows: seq<Run>, later: seq<Run>, a: PlanAction, now: int, i: nat)
    requires Admissible(p, c, rows, later, a, now) && p.policy.executeCooldownMinutes > 0
    requires forall j | 0 <= j < |later| && SameTarget(later[j], p.host, a.id) :: later[j].requestedAt <= now
    requires i < |later| && SameTarget(later[i], p.host, a.id)
    ensures now - later[i].requestedAt > p.policy.executeCooldownMinutes * 60_000
  {
    var latest := LatestRequest(later, p.host, a.id);
    var j :| 0 <= j < |later| && SameTarget(later[j], p.host, a.id) && later[j].requestedAt == latest.value;
  }

  // ---------------------------------------------------------------- one active run per target

  /** Creates a run whatever is queued already, or without looking at the moment it writes. */
  predicate ManualCreate(step: Step) { step.Enqueue? && step.test != NoneActive }

  predicate Creates(step: Step) { step.Enqueue? || step.Replay? }

  ghost predicate NoManualCreates(steps: seq<Step>) {
    forall i | 0 <= i < |steps| :: !ManualCreate(steps[i])
  }

  ghost predicate NoCreates(steps: seq<Step>) {
    forall i | 0 <= i < |steps| :: !Creates(steps[i])
  }

  lemma {:induction false} GapKeepsUnique(s: System, gap: seq<Step>)
    requires Inv(s) && DrainTheorems.UniqueActive(s.rows) && NoManualCreates(gap)
    ensures DrainTheorems.UniqueActive(Play(s, gap).rows)
    decreases |gap|
  {
    if gap != [] {
      var before, step := gap[..|gap| - 1], gap[|gap| - 1];
      assert forall i | 0 <= i < |before| :: before[i] == gap[i];
      GapKeepsUnique(s, before);
      DrainSafety.PlayKeepsInv(s, before);
      if Enabled(Play(s, before), step) { DrainTheorems.UniqueAfterStep(Play(s, before), step); }
    }
  }

  /** Without a create, no target becomes active. */
  lemma StepKeepsIdle(s: System, step: Step, host: string, action: string)
    requires Inv(s) && !Creates(step) && !ActiveFor(s.rows, host, action)
    ensures !ActiveFor(Apply(s, step).rows, host, action)
  {
    var t := Apply(s, step);
    DrainTheorems.RowCount(s, step);
    forall i: nat | i < |s.rows| && SameTarget(t.rows[i], host, action) ensures !Active(t.rows[i]) {
      DrainTheorems.StepMoves(s, step, i);
    }
  }

  lemma {:induction false} GapKeepsIdle(s: System, gap: seq<Step>, host: string, action: string)
    requires Inv(s) && NoCreates(gap) && !ActiveFor(s.rows, host, action)
    ensures !ActiveFor(Play(s, gap).rows, host, action)
    decreases |gap|
  {
    if gap != [] {
      var before, step := gap[..|gap| - 1], gap[|gap| - 1];
      assert forall i | 0 <= i < |before| :: before[i] == gap[i];
      GapKeepsIdle(s, before, host, action);
      DrainSafety.PlayKeepsInv(s, before);
      StepKeepsIdle(Play(s, before), step, host, action);
    }
  }

  /** A turn leaves one active run per target exactly when, at the moment it creates a run, none is
      active for the target: what it saw when it looked need not hold any more. */
  lemma TurnKeepsUniqueExactlyWhen(p: Pass, s: Progress, t: Turn)
    requires InRange(p.policy) && DrainTheorems.UniqueActive(Written(s.table, t).rows)
    ensures DrainTheorems.UniqueActive(TakeTurn(RulesOf(p), s, t).table.rows) <==>
              (Admits(p, s, t) ==> !ActiveFor(Written(s.table, t).rows, p.host, t.action.id))
  {
    OneTurn(p, s, t);
    LateWrites.AppendedActive(Written(s.table, t).rows, RunFor(p, t.action, t.now));
  }

  /** Others look for active runs at the moment they create one, and create none between the look of a
      turn and its own create. */
  ghost predicate OthersTakeCare(t: Turn) {
    NoManualCreates(t.gap) && NoCreates(t.mid) && NoCreates(t.late)
  }

  ghost predicate Sound(table: System) { Inv(table) && DrainTheorems.UniqueActive(table.rows) }

  lemma TurnKeepsUnique(p: Pass, s: Progress, t: Turn)
    requires InRange(p.policy) && Sound(s.table) && OthersTakeCare(t)
    ensures Sound(TakeTurn(RulesOf(p), s, t).table)
  {
    TurnKeepsInv(RulesOf(p), s, t);
    var seen, later := Seen(s.table, t), Later(s.table, t);
    TurnTablesKeepInv(s.table, t);
    GapKeepsUnique(s.table, t.gap);
    GapKeepsUnique(seen, t.mid);
    GapKeepsUnique(later, t.late);
    RefusalIsExact(p, s.counters, seen.rows, later.rows, t.action, t.now);
    if Admits(p, s, t) {
      GapKeepsIdle(seen, t.mid, p.host, t.action.id);
      GapKeepsIdle(later, t.late, p.host, t.action.id);
    }
    TurnKeepsUniqueExactlyWhen(p, s, t);
  }

  /** With such company a pass keeps at most one active run per host and action, even when a plan
      repeats an action. */
  lemma PlanningKeepsActiveUnique(p: Pass, first: Progress, turns: seq<Turn>, n: nat)
    requires n <= |turns| && InRange(p.policy) && Sound(first.table)
    requires forall i | 0 <= i < |turns| :: OthersTakeCare(turns[i])
    ensures Sound(PassUpTo(p, first, turns, n).table)
  {
    var good, kind := (s: Progress) => Sound(s.table), (t: Turn) => OthersTakeCare(t);
    forall s: Progress, t: Turn | good(s) && kind(t) ensures good(TakeTurn(RulesOf(p), s, t)) {
      TurnKeepsUnique(p, s, t);
    }
    KeptThroughout(RulesOf(p), good, kind, first, turns, 0, n);
  }

  /** Two overlapping passes for a host queue the same action twice, whatever else they meet: the other
      pass writes its create after this one has looked. */
  lemma OverlappingPassesQueueTwice(p: Pass, s: Progress, t: Turn)
    requires InRange(p.policy) && t.mid == [] && Admits(p, s, t)
    requires t.late == [Enqueue(p.host, t.action.id, t.now, Readable(NewPayload(p, t.action, t.now)), NoneActive)]
    ensures !DrainTheorems.UniqueActive(TakeTurn(RulesOf(p), s, t).table.rows)
  {
    var seen, written, create := Seen(s.table, t), Written(s.table, t), t.late[0];
    var rows := TakeTurn(RulesOf(p), s, t).table.rows;
    var run := RunFor(p, t.action, t.now);
    RefusalIsExact(p, s.counters, seen.rows, Later(s.table, t).rows, t.action, t.now);
    NewRunsAreFresh(p, t.action, t.now, t.now);
    DrainSafety.PlayOne(seen, [], create);
    assert [] + [create] == t.late && written.rows == seen.rows + [run];
    OneTurn(p, s, t);
    var n := |seen.rows|;
    assert Active(rows[n]) && Active(rows[n + 1]) && SameTarget(rows[n], rows[n + 1].hostId, rows[n + 1].actionId);
  }

  // ---------------------------------------------------------------- the loop as it runs

  method CheckCounters(p: Pass, c: Counters, a: PlanAction) returns (refusal: Option<Reason>)
    ensures refusal == CounterRefusal(p, c, a)
  {
    if c.queuedNow >= p.policy.autonomousMaxQueuedPerCycle { return Some(CycleLimit); }
    if a.tier == Observe { return Some(ObserveOnly); }
    if !AutoExecutable(a.tier, p.policy.autonomousMaxTier) { return Some(TierTooHigh); }
    if c.queuedAutoHour >= p.policy.autonomousMaxQueuedPerHour { return Some(AutonomousHourLimit); }
    if c.executeInHour >= p.policy.maxExecutePerHour { return Some(ExecuteHourLimit); }
    if c.activeForHost >= p.policy.maxQueuePerHost { return Some(HostBacklog); }
    if c.queuedGlobal >= p.policy.maxQueueTotal { return Some(GlobalBacklog); }
    return None;
  }

  method CheckAction(p: Pass, a: PlanAction) returns (refusal: Option<Reason>)
    ensures refusal == ActionRefusal(p, a)
  {
    var guardIssues := Guard.ValidateCommands(a.commands, p.guard);
    if |guardIssues| > 0 { return Some(GuardBlocked); }
    var canaryChecks := CommandList(a.canaryChecks);
    if !SelectionFor(p, a).selected { return Some(OutsideCanary); }
    if p.policy.canaryRequireChecks && |canaryChecks| == 0 { return Some(NoCanaryChecks); }
    return None;
  }

  /** The checks of a turn, with others acting before each of its readings and after the last one. */
  method Judge(p: Pass, table: RemediationQueue.RunTable, c: Counters, t: Turn) returns (refusal: Option<Reason>)
    requires table.Valid()
    modifies table
    ensures table.Valid() && table.Sys() == Written(old(table.Sys()), t)
    ensures refusal == Refusal(p, c, Seen(old(table.Sys()), t).rows, Later(old(table.Sys()), t).rows, t.action, t.now)
  {
    var a := t.action;
    refusal := CheckCounters(p, c, a);
    table.Elapse(t.gap);
    if refusal.None? && ActiveFor(table.rows, p.host, a.id) { refusal := Some(AlreadyActive); }
    table.Elapse(t.mid);
    if refusal.None? {
      var latest := LatestRequest(table.rows, p.host, a.id);
      if latest.Some? && p.policy.executeCooldownMinutes > 0
         && WithinMinutes(latest.value, p.policy.executeCooldownMinutes, t.now) {
        refusal := Some(CoolingDown);
      }
    }
    if refusal.None? { refusal := CheckAction(p, a); }
    table.Elapse(t.late);
  }

  /** The create of the loop. */
  method CreateFor(p: Pass, table: RemediationQueue.RunTable, a: PlanAction, now: int)
    requires table.Valid() && InRange(p.policy)
    modifies table
    ensures table.Valid() && table.Sys() == Apply(old(table.Sys()), CreateStep(RulesOf(p), a, now))
  {
    NewRunsAreFresh(p, a, now, now);
    table.CreateRun(p.host, a.id, now, Readable(NewPayload(p, a, now)));
  }

  /** One turn of the loop: a decision, and a run if the action is let through. */
  method PlanOne(p: Pass, table: RemediationQueue.RunTable, given: seq<Decision>, pending: nat, c: Counters, t: Turn)
    returns (decisions: seq<Decision>, approvalPending: nat, next: Counters)
    requires table.Valid() && InRange(p.policy)
    modifies table
    ensures table.Valid()
    ensures Progress(table.Sys(), next, decisions, approvalPending)
         == TakeTurn(RulesOf(p), Progress(old(table.Sys()), c, given, pending), t)
  {
    var a := t.action;
    var refusal := Judge(p, table, c, t);
    if refusal.Some? {
      return given + [Skipped(a.id, refusal.value)], pending, c;
    }
    var required := NeedsApproval(p, a);
    decisions := given + [Enqueued(a.id, |table.rows|, required, SelectionFor(p, a))];
    CreateFor(p, table, a, t.now);
    next := Bump(c);
    approvalPending := if required then pending + 1 else pending;
  }

  /** The four counts, with others acting in between. */
  method CountRunsFirst(p: Pass, table: RemediationQueue.RunTable, g: Counting) returns (c: Counters)
    requires table.Valid()
    modifies table
    ensures table.Valid() && Progress(table.Sys(), c, [], 0) == Opening(p, old(table.Sys()), g)
  {
    var activeForHost := Count(p, table.rows, HostActive);
    table.Elapse(g.first);
    var queuedGlobal := Count(p, table.rows, GlobalQueued);
    table.Elapse(g.second);
    var queuedAutoHour := Count(p, table.rows, AutonomousHour);
    table.Elapse(g.third);
    var executeInHour := Count(p, table.rows, ExecuteHour);
    return Counters(activeForHost, queuedGlobal, queuedAutoHour, executeInHour, 0);
  }

  /** queueAutonomousRemediationForHost, from the counts on. */
  method QueueAutonomousRemediation(p: Pass, table: RemediationQueue.RunTable, g: Counting, turns: seq<Turn>)
    returns (decisions: seq<Decision>, queued: nat, approvalPending: nat, ghost counters: Counters)
    requires table.Valid() && InRange(p.policy)
    modifies table
    ensures table.Valid() && queued == counters.queuedNow
    ensures Progress(table.Sys(), counters, decisions, approvalPending)
         == PassUpTo(p, Opening(p, old(table.Sys()), g), turns, |turns|)
  {
    ghost var first := Opening(p, table.Sys(), g);
    var c := CountRunsFirst(p, table, g);
    decisions, approvalPending := [], 0;
    for i := 0 to |turns|
      invariant table.Valid()
      invariant Progress(table.Sys(), c, decisions, approvalPending) == PassUpTo(p, first, turns, i)
    {
      decisions, approvalPending, c := PlanOne(p, table, decisions, approvalPending, c, turns[i]);
    }
    counters := c;
    queued := c.queuedNow;
  }
}
