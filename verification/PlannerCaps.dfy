/** The caps of the autonomous planner (src/lib/remediate/autonomous-runtime.ts): how far the counters
    of a pass and the table can drift apart while drains, operators and other planners act, and how far
    beyond a cap that can take a count. */
module PlannerCaps {
  import opened Common
  import opened QueueRuntime
  import opened DrainProtocol
  import opened CanaryBucket
  import opened CommandLists
  import opened DrainInvariant
  import opened RemediationPolicy
  import opened AutonomousPlanner
  import DrainSafety
  import DrainTheorems
  import Guard

  // ---------------------------------------------------------------- one turn, as the counts see it

  /** What the planner adds to the table. */
  predicate CountsAsPlanned(p: Pass, r: Run, now: int) {
    && r.hostId == p.host && r.state == Queued && r.requestedAt == now
    && r.params.Readable? && r.params.payload.queue.autoQueued
  }

  predicate WithinCaps(p: Pass, c: Counters) {
    && c.queuedNow <= p.policy.autonomousMaxQueuedPerCycle
    && CounterOf(c, HostActive) <= CapOf(p, HostActive) && CounterOf(c, GlobalQueued) <= CapOf(p, GlobalQueued)
    && CounterOf(c, AutonomousHour) <= CapOf(p, AutonomousHour) && CounterOf(c, ExecuteHour) <= CapOf(p, ExecuteHour)
  }

  /** The turn leaves the table to the others and the counters alone, or adds a run and counts it. */
  predicate Accounts(p: Pass, s: Progress, turn: Turn, next: Progress) {
    var rows := Written(s.table, turn).rows;
    var n := |rows|;
    || (next.table.rows == rows && next.counters == s.counters)
    || (|next.table.rows| == n + 1 && next.table.rows == rows + [next.table.rows[n]]
        && CountsAsPlanned(p, next.table.rows[n], turn.now)
        && next.counters == Bump(s.counters) && WithinCaps(p, next.counters))
  }

  lemma TurnAccounts(p: Pass, s: Progress, turn: Turn)
    requires InRange(p.policy)
    ensures Accounts(p, s, turn, TakeTurn(RulesOf(p), s, turn))
  {
    OneTurn(p, s, turn);
    if Admits(p, s, turn) { AdmittedWithinCaps(p, s, turn); }
  }

  lemma AdmittedWithinCaps(p: Pass, s: Progress, turn: Turn)
    requires Admits(p, s, turn)
    ensures WithinCaps(p, Bump(s.counters)) && CountsAsPlanned(p, RunFor(p, turn.action, turn.now), turn.now)
  {
    CounterRefusalIsExact(p, s.counters, [], [], turn.action, turn.now);
  }

  /** Whatever else the rules of a pass are, its turns account for what they do. */
  ghost predicate Obeys(p: Pass, rules: Rules) {
    forall s: Progress, turn: Turn :: Accounts(p, s, turn, TakeTurn(rules, s, turn))
  }

  lemma RulesObey(p: Pass)
    requires InRange(p.policy)
    ensures Obeys(p, RulesOf(p))
  {
    forall s: Progress, turn: Turn ensures Accounts(p, s, turn, TakeTurn(RulesOf(p), s, turn)) {
      TurnAccounts(p, s, turn);
    }
  }

  // ---------------------------------------------------------------- counters against the table

  /** By how much others change a count during a turn. */
  function TurnChange(p: Pass, table: System, turn: Turn, t: Tally): int {
    Count(p, Written(table, turn).rows, t) - Count(p, table.rows, t)
  }

  /** By how much the table differs from the counter. */
  function Missed(p: Pass, s: Progress, t: Tally): int {
    Count(p, s.table.rows, t) - CounterOf(s.counters, t)
  }

  /** By how much others have changed a count since the pass read it. */
  function Drift(p: Pass, rules: Rules, first: Progress, turns: seq<Turn>, n: nat, t: Tally): int
    requires n <= |turns|
  {
    if n == 0 then Missed(p, first, t)
    else
      Drift(p, rules, first, turns, n - 1, t)
      + TurnChange(p, After(rules, first, turns, n - 1).table, turns[n - 1], t)
  }

  ghost predicate InTheHour(p: Pass, turns: seq<Turn>) {
    forall i | 0 <= i < |turns| :: turns[i].now >= p.hourAgo
  }

  lemma TurnMisses(p: Pass, rules: Rules, s: Progress, turn: Turn, next: Progress, t: Tally)
    requires Obeys(p, rules) && next == TakeTurn(rules, s, turn) && turn.now >= p.hourAgo
    ensures Missed(p, next, t) == Missed(p, s, t) + TurnChange(p, s.table, turn, t)
  {
    assert Accounts(p, s, turn, TakeTurn(rules, s, turn));
    AccountedMiss(p, s, turn, next, t);
  }

  lemma AccountedMiss(p: Pass, s: Progress, turn: Turn, next: Progress, t: Tally)
    requires Accounts(p, s, turn, next) && turn.now >= p.hourAgo
    ensures Missed(p, next, t) == Missed(p, s, t) + TurnChange(p, s.table, turn, t)
  {
    var rows := Written(s.table, turn).rows;
    if |next.table.rows| > |rows| { CountAppend(rows, next.table.rows[|rows|], (r: Run) => Counted(p, t, r)); }
  }

  lemma {:induction false} TurnsMiss(p: Pass, rules: Rules, first: Progress, turns: seq<Turn>, n: nat, t: Tally)
    requires n <= |turns| && Obeys(p, rules) && InTheHour(p, turns)
    ensures Missed(p, After(rules, first, turns, n), t) == Drift(p, rules, first, turns, n, t)
  {
    if n > 0 {
      TurnsMiss(p, rules, first, turns, n - 1, t);
      TurnMisses(p, rules, After(rules, first, turns, n - 1), turns[n - 1], After(rules, first, turns, n), t);
    }
  }

  /** A count of the table is the counter of the pass and what others have made of it meanwhile. */
  lemma CountersMissTheGaps(p: Pass, first: Progress, turns: seq<Turn>, n: nat, t: Tally)
    requires n <= |turns| && InRange(p.policy) && InTheHour(p, turns)
    ensures var s := PassUpTo(p, first, turns, n);
            Count(p, s.table.rows, t) == CounterOf(s.counters, t) + Drift(p, RulesOf(p), first, turns, n, t)
  {
    RulesObey(p);
    TurnsMiss(p, RulesOf(p), first, turns, n, t);
  }

  predicate Quiet(t: Turn) { t.gap == [] && t.mid == [] && t.late == [] }

  ghost predicate NobodyActs(turns: seq<Turn>) { forall i | 0 <= i < |turns| :: Quiet(turns[i]) }

  lemma QuietNoChange(p: Pass, table: System, turns: seq<Turn>, i: nat, t: Tally)
    requires i < |turns| && NobodyActs(turns)
    ensures TurnChange(p, table, turns[i], t) == 0
  {
    assert Quiet(turns[i]);
    assert Written(table, turns[i]) == table;
  }

  lemma {:induction false} NobodyNoDrift(p: Pass, rules: Rules, first: Progress, turns: seq<Turn>, n: nat, t: Tally)
    requires n <= |turns| && NobodyActs(turns)
    ensures Drift(p, rules, first, turns, n, t) == Missed(p, first, t)
  {
    if n > 0 {
      NobodyNoDrift(p, rules, first, turns, n - 1, t);
      QuietNoChange(p, After(rules, first, turns, n - 1).table, turns, n - 1, t);
    }
  }

  lemma OpeningMissesNothing(p: Pass, table: System, t: Tally)
    ensures Missed(p, Opening(p, table, Counting([], [], [])), t) == 0
  {
  }

  /** When nobody acts during the pass, its counters are what recounting the table would give. */
  lemma UndisturbedPassRecounts(p: Pass, table: System, turns: seq<Turn>, n: nat, t: Tally)
    requires n <= |turns| && InRange(p.policy) && InTheHour(p, turns) && NobodyActs(turns)
    ensures var s := PassUpTo(p, Opening(p, table, Counting([], [], [])), turns, n);
            CounterOf(s.counters, t) == Count(p, s.table.rows, t)
  {
    var first := Opening(p, table, Counting([], [], []));
    OpeningMissesNothing(p, table, t);
    NobodyNoDrift(p, RulesOf(p), first, turns, n, t);
    CountersMissTheGaps(p, first, turns, n, t);
  }

  /** A turn that queues an action leaves a cap exceeded exactly when others have added more to the
      count since it was read than the counter has left. */
  lemma CapExceededExactlyWhen(p: Pass, first: Progress, turns: seq<Turn>, n: nat, t: Tally)
    requires n < |turns| && InRange(p.policy) && InTheHour(p, turns)
    requires Admits(p, PassUpTo(p, first, turns, n), turns[n])
    ensures var s := PassUpTo(p, first, turns, n + 1);
            var drift := Drift(p, RulesOf(p), first, turns, n + 1, t);
            && CounterOf(s.counters, t) <= CapOf(p, t)
            && (Count(p, s.table.rows, t) > CapOf(p, t) <==> drift > CapOf(p, t) - CounterOf(s.counters, t))
  {
    CountersMissTheGaps(p, first, turns, n + 1, t);
    QueuedWithinCap(p, PassUpTo(p, first, turns, n), turns[n], t);
  }

  lemma QueuedWithinCap(p: Pass, s: Progress, turn: Turn, t: Tally)
    requires InRange(p.policy) && Admits(p, s, turn)
    ensures CounterOf(TakeTurn(RulesOf(p), s, turn).counters, t) <= CapOf(p, t)
  {
    OneTurn(p, s, turn);
    RefusalIsExact(p, s.counters, Seen(s.table, turn).rows, Later(s.table, turn).rows, turn.action, turn.now);
  }

  lemma {:induction false} CountersStayWithinCaps(p: Pass, rules: Rules, first: Progress, turns: seq<Turn>, n: nat,
                                                  t: Tally)
    requires n <= |turns| && Obeys(p, rules) && InRange(p.policy) && first.counters.queuedNow == 0
    ensures var c := After(rules, first, turns, n).counters;
            && c.queuedNow <= p.policy.autonomousMaxQueuedPerCycle
            && CounterOf(c, t) <= Max(CounterOf(first.counters, t), CapOf(p, t))
  {
    if n > 0 {
      CountersStayWithinCaps(p, rules, first, turns, n - 1, t);
      var s := After(rules, first, turns, n - 1);
      assert Accounts(p, s, turns[n - 1], TakeTurn(rules, s, turns[n - 1]));
    }
  }

  // ---------------------------------------------------------------- what others can add to a count

  function CreatesIn(steps: seq<Step>): nat {
    if steps == [] then 0
    else CreatesIn(steps[..|steps| - 1]) + (if Creates(steps[|steps| - 1]) then 1 else 0)
  }

  lemma {:induction false} CountFalls(rows: seq<Run>, rows': seq<Run>, which: Run -> bool)
    requires |rows| == |rows'| && forall i | 0 <= i < |rows| && which(rows'[i]) :: which(rows[i])
    ensures CountRuns(rows', which) <= CountRuns(rows, which)
  {
    if rows != [] {
      var n := |rows| - 1;
      assert forall i | 0 <= i < n :: rows[..n][i] == rows[i] && rows'[..n][i] == rows'[i];
      CountFalls(rows[..n], rows'[..n], which);
    }
  }

  /** The runs that a count can come to include without a create: for the global backlog also those that
      are running and may be put back. */
  predicate Countable(p: Pass, t: Tally, r: Run) {
    if t == GlobalQueued then Active(r) else Counted(p, t, r)
  }

  function Ceiling(p: Pass, rows: seq<Run>, t: Tally): nat {
    CountRuns(rows, (r: Run) => Countable(p, t, r))
  }

  predicate Hourly(t: Tally) { t == AutonomousHour || t == ExecuteHour }

  /** The count after a step, when at most one row has been added. */
  lemma CountAfterStep(rows: seq<Run>, rows': seq<Run>, which: Run -> bool)
    requires |rows| <= |rows'| <= |rows| + 1
    ensures var last := if |rows'| > |rows| && which(rows'[|rows|]) then 1 else 0;
            && ((forall i | 0 <= i < |rows| && which(rows'[i]) :: which(rows[i])) ==>
                  CountRuns(rows', which) <= CountRuns(rows, which) + last)
            && ((forall i | 0 <= i < |rows| && which(rows[i]) :: which(rows'[i])) ==>
                  CountRuns(rows, which) + last <= CountRuns(rows', which))
  {
    var kept := rows'[..|rows|];
    assert forall i | 0 <= i < |rows| :: kept[i] == rows'[i];
    if forall i | 0 <= i < |rows| && which(rows'[i]) :: which(rows[i]) { CountFalls(rows, kept, which); }
    if forall i | 0 <= i < |rows| && which(rows[i]) :: which(rows'[i]) { CountFalls(kept, rows, which); }
    if |rows'| > |rows| {
      CountAppend(kept, rows'[|rows|], which);
      assert rows' == kept + [rows'[|rows|]];
    } else {
      assert rows' == kept;
    }
  }

  lemma RowStaysUncounted(p: Pass, s: System, step: Step, t: Tally, i: nat)
    requires Inv(s) && i < |s.rows|
    ensures |s.rows| <= |Apply(s, step).rows|
    ensures Countable(p, t, Apply(s, step).rows[i]) ==> Countable(p, t, s.rows[i])
    ensures Hourly(t) ==> (Counted(p, t, Apply(s, step).rows[i]) <==> Counted(p, t, s.rows[i]))
  {
    DrainTheorems.StepMoves(s, step, i);
  }

  lemma StepRaises(p: Pass, s: System, step: Step, t: Tally)
    requires Inv(s)
    ensures Ceiling(p, Apply(s, step).rows, t) <= Ceiling(p, s.rows, t) + (if Creates(step) then 1 else 0)
  {
    var rows, rows' := s.rows, Apply(s, step).rows;
    var which := (r: Run) => Countable(p, t, r);
    DrainTheorems.RowCount(s, step);
    forall i: nat | i < |rows| && which(rows'[i]) ensures which(rows[i]) { RowStaysUncounted(p, s, step, t, i); }
    CountAfterStep(rows, rows', which);
  }

  lemma {:induction false} PlayRaises(p: Pass, s: System, steps: seq<Step>, t: Tally)
    requires Inv(s)
    ensures Ceiling(p, Play(s, steps).rows, t) <= Ceiling(p, s.rows, t) + CreatesIn(steps)
    decreases |steps|
  {
    if steps != [] {
      var before := steps[..|steps| - 1];
      PlayRaises(p, s, before, t);
      DrainSafety.PlayKeepsInv(s, before);
      StepRaises(p, Play(s, before), steps[|steps| - 1], t);
    }
  }

  /** How far the count can rise above the counter, create for create. */
  function Excess(p: Pass, s: Progress, t: Tally): int {
    Ceiling(p, s.table.rows, t) - CounterOf(s.counters, t)
  }

  lemma TurnRaises(p: Pass, s: Progress, turn: Turn, next: Progress, t: Tally)
    requires Accounts(p, s, turn, next) && Inv(s.table)
    ensures Excess(p, next, t) <= Excess(p, s, t) + CreatesIn(Meanwhile(turn))
  {
    var rows := Written(s.table, turn).rows;
    WrittenIsMeanwhile(s.table, turn);
    PlayRaises(p, s.table, Meanwhile(turn), t);
    if |next.table.rows| > |rows| { CountAppend(rows, next.table.rows[|rows|], (r: Run) => Countable(p, t, r)); }
  }

  /** The sum of d over the first n turns. */
  function Total(d: Turn -> nat, turns: seq<Turn>, n: nat): nat
    requires n <= |turns|
  {
    if n == 0 then 0 else Total(d, turns, n - 1) + d(turns[n - 1])
  }

  lemma {:induction false} NoneInAll(d: Turn -> nat, turns: seq<Turn>, n: nat)
    requires n <= |turns| && forall i | 0 <= i < |turns| :: d(turns[i]) == 0
    ensures Total(d, turns, n) == 0
  {
    if n > 0 { NoneInAll(d, turns, n - 1); }
  }

  /** The runs that others create during the first n turns. */
  function OthersCreate(turns: seq<Turn>, n: nat): nat
    requires n <= |turns|
  {
    Total((t: Turn) => CreatesIn(Meanwhile(t)), turns, n)
  }

  /** From a sound table, a turn leads to a sound table and raises f by at most d. */
  ghost predicate Climbs(rules: Rules, sound: System -> bool, f: Progress -> int, d: Turn -> nat) {
    forall s: Progress, turn: Turn :: sound(s.table) ==>
      var next := TakeTurn(rules, s, turn); sound(next.table) && f(next) <= f(s) + d(turn)
  }

  lemma {:induction false} ClimbsInAll(rules: Rules, sound: System -> bool, f: Progress -> int, d: Turn -> nat,
                                       first: Progress, turns: seq<Turn>, n: nat)
    requires n <= |turns| && Climbs(rules, sound, f, d) && sound(first.table)
    ensures sound(After(rules, first, turns, n).table)
    ensures f(After(rules, first, turns, n)) <= f(first) + Total(d, turns, n)
  {
    if n > 0 { ClimbsInAll(rules, sound, f, d, first, turns, n - 1); }
  }

  lemma TurnsRaise(p: Pass, first: Progress, turns: seq<Turn>, n: nat, t: Tally)
    requires n <= |turns| && InRange(p.policy) && Inv(first.table)
    ensures Excess(p, PassUpTo(p, first, turns, n), t) <= Excess(p, first, t) + OthersCreate(turns, n)
  {
    var sound, f := (s: System) => Inv(s), (s: Progress) => Excess(p, s, t);
    var d := (t: Turn) => CreatesIn(Meanwhile(t));
    assert Climbs(RulesOf(p), sound, f, d) by {
      forall s: Progress, turn: Turn | Inv(s.table)
        ensures var next := TakeTurn(RulesOf(p), s, turn); sound(next.table) && f(next) <= f(s) + d(turn)
      {
        TurnKeepsInv(RulesOf(p), s, turn);
        TurnAccounts(p, s, turn);
        TurnRaises(p, s, turn, TakeTurn(RulesOf(p), s, turn), t);
      }
    }
    ClimbsInAll(RulesOf(p), sound, f, d, first, turns, n);
  }

  /** What others do between one of the counts and the first turn. */
  function SinceCount(g: Counting, t: Tally): seq<Step> {
    match t
    case HostActive => g.first + g.second + g.third
    case GlobalQueued => g.second + g.third
    case AutonomousHour => g.third
    case ExecuteHour => []
  }

  lemma OpeningSince(p: Pass, table: System, g: Counting, t: Tally)
    ensures Opening(p, table, g).table == Play(CountedAt(table, g, t), SinceCount(g, t))
  {
    DrainSafety.PlayConcat(table, g.first, g.second);
    DrainSafety.PlayConcat(table, g.first + g.second, g.third);
    DrainSafety.PlayConcat(Play(table, g.first), g.second, g.third);
  }

  function RunningRuns(rows: seq<Run>): nat { CountRuns(rows, (r: Run) => r.state == Running) }

  /** Running runs are not in the global count when it is read. */
  function Uncounted(table: System, g: Counting, t: Tally): nat {
    if t == GlobalQueued then RunningRuns(CountedAt(table, g, t).rows) else 0
  }

  lemma {:induction false} CountSplits(rows: seq<Run>, which: Run -> bool, one: Run -> bool, other: Run -> bool)
    requires forall r :: which(r) <==> one(r) || other(r)
    requires forall r :: !(one(r) && other(r))
    ensures CountRuns(rows, which) == CountRuns(rows, one) + CountRuns(rows, other)
  {
    if rows != [] { CountSplits(rows[..|rows| - 1], which, one, other); }
  }

  lemma CeilingAtCount(p: Pass, rows: seq<Run>, t: Tally)
    ensures Count(p, rows, t) <= Ceiling(p, rows, t)
    ensures Ceiling(p, rows, t) == Count(p, rows, t) + (if t == GlobalQueued then RunningRuns(rows) else 0)
  {
    var which, one := (r: Run) => Countable(p, t, r), (r: Run) => Counted(p, t, r);
    var other := (r: Run) => t == GlobalQueued && r.state == Running;
    CountSplits(rows, which, one, other);
    if t == GlobalQueued {
      SameCount(rows, other, (r: Run) => r.state == Running);
    } else {
      SameCount(rows, which, one);
    }
  }

  lemma {:induction false} SameCount(rows: seq<Run>, one: Run -> bool, other: Run -> bool)
    requires forall r :: one(r) <==> other(r)
    ensures CountRuns(rows, one) == CountRuns(rows, other)
  {
    if rows != [] { SameCount(rows[..|rows| - 1], one, other); }
  }

  /** How far a cap can be exceeded, whatever drains, operators and other planners do: beyond the cap,
      or beyond where the count stood, by at most one for every run that others create meanwhile, and
      the global backlog also by one for every run that was running when it was counted. */
  lemma CapsAreExceededByAtMost(p: Pass, table: System, g: Counting, turns: seq<Turn>, n: nat, t: Tally)
    requires n <= |turns| && InRange(p.policy) && Inv(table)
    ensures var s := PassUpTo(p, Opening(p, table, g), turns, n);
            && s.counters.queuedNow <= p.policy.autonomousMaxQueuedPerCycle
            && Count(p, s.table.rows, t)
                 <= Max(FirstCount(p, table, g, t), CapOf(p, t)) + Uncounted(table, g, t)
                    + CreatesIn(SinceCount(g, t)) + OthersCreate(turns, n)
  {
    var first := Opening(p, table, g);
    RulesObey(p);
    OpeningKeepsInv(table, g, ExecuteHour);
    OpeningRaises(p, table, g, t);
    TurnsRaise(p, first, turns, n, t);
    CeilingAtCount(p, PassUpTo(p, first, turns, n).table.rows, t);
    CountersStayWithinCaps(p, RulesOf(p), first, turns, n, t);
  }

  lemma OpeningRaises(p: Pass, table: System, g: Counting, t: Tally)
    requires Inv(table)
    ensures var first := Opening(p, table, g);
            && Excess(p, first, t) <= Uncounted(table, g, t) + CreatesIn(SinceCount(g, t))
            && CounterOf(first.counters, t) == FirstCount(p, table, g, t)
  {
    var at := CountedAt(table, g, t);
    OpeningKeepsInv(table, g, t);
    OpeningSince(p, table, g, t);
    PlayRaises(p, at, SinceCount(g, t), t);
    CeilingAtCount(p, at.rows, t);
  }

  ghost predicate NobodyCreates(g: Counting, turns: seq<Turn>) {
    && NoCreates(g.first + g.second + g.third)
    && forall i | 0 <= i < |turns| :: NoCreates(Meanwhile(turns[i]))
  }

  lemma {:induction false} NoneCreated(steps: seq<Step>)
    requires NoCreates(steps)
    ensures CreatesIn(steps) == 0
  {
    if steps != [] {
      assert forall i | 0 <= i < |steps| - 1 :: steps[..|steps| - 1][i] == steps[i];
      NoneCreated(steps[..|steps| - 1]);
    }
  }

  lemma OthersCreateNone(g: Counting, turns: seq<Turn>, n: nat)
    requires n <= |turns| && NobodyCreates(g, turns)
    ensures OthersCreate(turns, n) == 0
  {
    forall i | 0 <= i < |turns| ensures CreatesIn(Meanwhile(turns[i])) == 0 { NoneCreated(Meanwhile(turns[i])); }
    NoneInAll((t: Turn) => CreatesIn(Meanwhile(t)), turns, n);
  }

  lemma NoneSinceCount(g: Counting, turns: seq<Turn>, t: Tally)
    requires NobodyCreates(g, turns)
    ensures CreatesIn(SinceCount(g, t)) == 0
  {
    var all, since := g.first + g.second + g.third, SinceCount(g, t);
    var skipped := |all| - |since|;
    assert all[skipped..] == since;
    forall i | 0 <= i < |since| ensures !Creates(since[i]) { assert since[i] == all[skipped + i]; }
    NoneCreated(since);
  }

  /** So drains, approvals and rejections alone never take a count beyond its cap and where it stood;
      the global backlog when nothing was running as it was counted. */
  lemma CapsAreKept(p: Pass, table: System, g: Counting, turns: seq<Turn>, n: nat, t: Tally)
    requires n <= |turns| && InRange(p.policy) && Inv(table) && NobodyCreates(g, turns)
    requires t == GlobalQueued ==> RunningRuns(CountedAt(table, g, t).rows) == 0
    ensures var s := PassUpTo(p, Opening(p, table, g), turns, n);
            Count(p, s.table.rows, t) <= Max(FirstCount(p, table, g, t), CapOf(p, t))
  {
    CapsAreExceededByAtMost(p, table, g, turns, n, t);
    NoneSinceCount(g, turns, t);
    OthersCreateNone(g, turns, n);
  }

  // ---------------------------------------------------------------- the hourly counts

  /** Nothing takes a run out of an hourly count. */
  lemma StepKeepsHourly(p: Pass, s: System, step: Step, t: Tally)
    requires Inv(s) && Hourly(t)
    ensures Count(p, s.rows, t) <= Count(p, Apply(s, step).rows, t)
  {
    var rows, rows' := s.rows, Apply(s, step).rows;
    var which := (r: Run) => Counted(p, t, r);
    DrainTheorems.RowCount(s, step);
    forall i: nat | i < |rows| && which(rows[i]) ensures which(rows'[i]) { RowStaysUncounted(p, s, step, t, i); }
    CountAfterStep(rows, rows', which);
  }

  lemma {:induction false} PlayKeepsHourly(p: Pass, s: System, steps: seq<Step>, t: Tally)
    requires Inv(s) && Hourly(t)
    ensures Count(p, s.rows, t) <= Count(p, Play(s, steps).rows, t)
    decreases |steps|
  {
    if steps != [] {
      var before := steps[..|steps| - 1];
      PlayKeepsHourly(p, s, before, t);
      DrainSafety.PlayKeepsInv(s, before);
      StepKeepsHourly(p, Play(s, before), steps[|steps| - 1], t);
    }
  }

  /** A turn dated before the hour would be counted without counting. */
  function Undated(p: Pass, turn: Turn): nat { if turn.now >= p.hourAgo then 0 else 1 }

  lemma TurnKeepsHourly(p: Pass, s: Progress, turn: Turn, next: Progress, t: Tally)
    requires Accounts(p, s, turn, next) && Inv(s.table) && Hourly(t)
    ensures Missed(p, s, t) <= Missed(p, next, t) + Undated(p, turn)
  {
    var rows := Written(s.table, turn).rows;
    WrittenIsMeanwhile(s.table, turn);
    PlayKeepsHourly(p, s.table, Meanwhile(turn), t);
    if |next.table.rows| > |rows| { CountAppend(rows, next.table.rows[|rows|], (r: Run) => Counted(p, t, r)); }
  }

  lemma TurnsKeepHourly(p: Pass, first: Progress, turns: seq<Turn>, n: nat, t: Tally)
    requires n <= |turns| && InRange(p.policy) && InTheHour(p, turns) && Inv(first.table) && Hourly(t)
    ensures Missed(p, first, t) <= Missed(p, PassUpTo(p, first, turns, n), t)
  {
    var sound, f := (s: System) => Inv(s), (s: Progress) => -Missed(p, s, t);
    var d := (turn: Turn) => Undated(p, turn);
    assert Climbs(RulesOf(p), sound, f, d) by {
      forall s: Progress, turn: Turn | Inv(s.table)
        ensures var next := TakeTurn(RulesOf(p), s, turn); sound(next.table) && f(next) <= f(s) + d(turn)
      {
        TurnKeepsInv(RulesOf(p), s, turn);
        TurnAccounts(p, s, turn);
        TurnKeepsHourly(p, s, turn, TakeTurn(RulesOf(p), s, turn), t);
      }
    }
    ClimbsInAll(RulesOf(p), sound, f, d, first, turns, n);
    NoneInAll(d, turns, n);
  }

  lemma OpeningKeepsHourly(p: Pass, table: System, g: Counting, t: Tally)
    requires Inv(table) && Hourly(t)
    ensures 0 <= Missed(p, Opening(p, table, g), t)
  {
    OpeningKeepsInv(table, g, t);
    OpeningSince(p, table, g, t);
    PlayKeepsHourly(p, CountedAt(table, g, t), SinceCount(g, t), t);
  }

  /** The hourly counters are never too high, and too low by at most the runs that others create; so
      they are exact when nobody else creates one. */
  lemma HourlyCountersAreClose(p: Pass, table: System, g: Counting, turns: seq<Turn>, n: nat, t: Tally)
    requires n <= |turns| && InRange(p.policy) && InTheHour(p, turns) && Inv(table) && Hourly(t)
    ensures 0 <= Missed(p, PassUpTo(p, Opening(p, table, g), turns, n), t)
              <= CreatesIn(SinceCount(g, t)) + OthersCreate(turns, n)
  {
    var first := Opening(p, table, g);
    RulesObey(p);
    OpeningKeepsInv(table, g, ExecuteHour);
    OpeningRaises(p, table, g, t);
    OpeningKeepsHourly(p, table, g, t);
    TurnsRaise(p, first, turns, n, t);
    TurnsKeepHourly(p, first, turns, n, t);
    CeilingAtCount(p, PassUpTo(p, first, turns, n).table.rows, t);
  }

  // ---------------------------------------------------------------- the global backlog

  lemma {:induction false} CountUpdate(rows: seq<Run>, i: nat, r: Run, which: Run -> bool)
    requires i < |rows|
    ensures CountRuns(rows[i := r], which)
         == CountRuns(rows, which) + (if which(r) then 1 else 0) - (if which(rows[i]) then 1 else 0)
  {
    var n := |rows| - 1;
    if i < n {
      CountUpdate(rows[..n], i, r, which);
      assert rows[i := r][..n] == rows[..n][i := r];
    } else {
      assert rows[i := r][..n] == rows[..n];
    }
  }

  /** What a step does to the global backlog: creates and replays add one, and so does a worker that puts
      back the run it had claimed; a claim that wins and a rejection take one away. */
  function Swing(s: System, step: Step): int {
    if !Enabled(s, step) then 0
    else match step
      case Enqueue(_, _, _, _, _) => 1
      case Replay(_, _) => 1
      case TakeClaim(w, _) => if s.rows[s.workers[w].id].state == Queued then -1 else 0
      case Reject(_, _, _, _) => -1
      case CheckClaim(w, now, ttlNow) =>
        var verdict := Admit(s.workers[w].claim, now, ttlNow);
        if verdict.Release? && verdict.update.state == Queued then 1 else 0
      case SettleRun(w) =>
        var c := s.workers[w];
        if Settle(c.claim.run.params.payload, c.attempt, c.claim.policy, c.now).state == Queued then 1 else 0
      case _ => 0
  }

  lemma RowSwing(p: Pass, rows: seq<Run>, id: nat, r: Run)
    requires id < |rows|
    ensures Count(p, rows[id := r], GlobalQueued)
         == Count(p, rows, GlobalQueued)
            + (if r.state == Queued then 1 else 0) - (if rows[id].state == Queued then 1 else 0)
  {
    CountUpdate(rows, id, r, (r: Run) => Counted(p, GlobalQueued, r));
  }

  lemma AppendSwing(p: Pass, rows: seq<Run>, r: Run)
    requires r.state == Queued
    ensures Count(p, rows + [r], GlobalQueued) == Count(p, rows, GlobalQueued) + 1
  {
    CountAppend(rows, r, (r: Run) => Counted(p, GlobalQueued, r));
  }

  /** Exactly that. */
  lemma BacklogSwings(p: Pass, s: System, step: Step)
    requires Inv(s)
    ensures Count(p, Apply(s, step).rows, GlobalQueued) == Count(p, s.rows, GlobalQueued) + Swing(s, step)
  {
    var t := Apply(s, step);
    if Enabled(s, step) {
      match step
      case Enqueue(h, a, at, params, _) => AppendSwing(p, s.rows, NewRun(h, a, at, params));
      case Replay(id, now) => ReplaySwings(p, s, id, now);
      case TakeClaim(w, _) => RowSwing(p, s.rows, s.workers[w].id, t.rows[s.workers[w].id]);
      case CheckClaim(w, _, _) => WorkerSwings(p, s, step);
      case SettleRun(w) => WorkerSwings(p, s, step);
      case Approve(id, _, _, _) => RowSwing(p, s.rows, id, t.rows[id]);
      case Reject(id, _, _, _) => RowSwing(p, s.rows, id, t.rows[id]);
      case _ =>
    }
  }

  lemma ReplaySwings(p: Pass, s: System, id: nat, now: int)
    requires Enabled(s, Replay(id, now))
    ensures Count(p, Apply(s, Replay(id, now)).rows, GlobalQueued) == Count(p, s.rows, GlobalQueued) + 1
  {
    var source := s.rows[id];
    var reviewed := ApplyUpdate(source, Reviewed(source, now));
    RowSwing(p, s.rows, id, reviewed);
    AppendSwing(p, s.rows, ReplayOf(source, id, now));
    AppendSwing(p, s.rows[id := reviewed], ReplayOf(source, id, now));
  }

  lemma WorkerSwings(p: Pass, s: System, step: Step)
    requires Inv(s) && Enabled(s, step) && (step.CheckClaim? || step.SettleRun?)
    ensures Count(p, Apply(s, step).rows, GlobalQueued) == Count(p, s.rows, GlobalQueued) + Swing(s, step)
  {
    var id := s.workers[step.w].id;
    assert WorkerOk(s.rows, s.parents, s.log, s.workers[step.w]);
    RowSwing(p, s.rows, id, Apply(s, step).rows[id]);
  }

  // ---------------------------------------------------------------- the bounds are reached

  lemma CountOne(rows: seq<Run>, which: Run -> bool)
    requires |rows| == 1
    ensures CountRuns(rows, which) == if which(rows[0]) then 1 else 0
  {
    assert rows[..0] == [];
  }

  /** An action that a pass with nothing on its counters queues, and nothing else about it matters. */
  predicate Unhindered(p: Pass, a: PlanAction) {
    && InRange(p.policy)
    && TierWithin(a.tier, p.policy.autonomousMaxTier) && Guard.Accepted(a.commands, p.guard)
    && InRollout(p, a) && (p.policy.canaryRequireChecks ==> SomeFilled(a.canaryChecks))
  }

  predicate OthersOnly(p: Pass, a: PlanAction, rows: seq<Run>) {
    forall i | 0 <= i < |rows| :: !SameTarget(rows[i], p.host, a.id)
  }

  lemma FirstActionIsQueued(p: Pass, s: Progress, t: Turn)
    requires Unhindered(p, t.action) && s.counters == Counters(0, 0, 0, 0, 0)
    requires t.mid == [] && t.late == [] && OthersOnly(p, t.action, Seen(s.table, t).rows)
    ensures Admits(p, s, t)
    ensures TakeTurn(RulesOf(p), s, t).table.rows == Seen(s.table, t).rows + [RunFor(p, t.action, t.now)]
  {
    var rows := Seen(s.table, t).rows;
    assert forall i | 0 <= i < |rows| :: rows[i].hostId != p.host || rows[i].actionId != t.action.id;
    RefusalIsExact(p, s.counters, rows, rows, t.action, t.now);
    OneTurn(p, s, t);
  }

  /** A pass of one turn that starts from a table without anything it counts. */
  lemma OneTurnPass(p: Pass, table: System, turns: seq<Turn>, tally: Tally)
    requires |turns| == 1 && Unhindered(p, turns[0].action)
    requires forall k: Tally :: Count(p, table.rows, k) == 0
    requires turns[0].mid == [] && turns[0].late == []
    requires OthersOnly(p, turns[0].action, Play(table, turns[0].gap).rows)
    requires tally == HostActive || tally == GlobalQueued
    ensures var s := PassUpTo(p, Opening(p, table, Counting([], [], [])), turns, |turns|);
            Count(p, s.table.rows, tally) == Count(p, Play(table, turns[0].gap).rows, tally) + 1
  {
    var first, t := Opening(p, table, Counting([], [], [])), turns[0];
    assert first.table == table && first.counters == Counters(0, 0, 0, 0, 0);
    FirstActionIsQueued(p, first, t);
    FirstTurn(p, first, turns);
    CountAppend(Seen(table, t).rows, RunFor(p, t.action, t.now), (r: Run) => Counted(p, tally, r));
  }

  lemma FirstTurn(p: Pass, first: Progress, turns: seq<Turn>)
    requires |turns| == 1
    ensures PassUpTo(p, first, turns, |turns|) == TakeTurn(RulesOf(p), first, turns[0])
  {
    assert PassUpTo(p, first, turns, 0) == first;
  }

  /** A claimed run that fails and is to be tried again. */
  predicate FailsOnce(run: Payload, policy: DrainProtocol.Policy) {
    && FreshQueue(run.queue) && !run.queue.approval.required && run.queue.maxAttempts > 1
    && !run.queue.canary.enabled && !run.queue.rollback.enabled
    && policy.queueTtlMinutes >= 0 && Guard.Issues(run.commands, policy.guard) == []
  }

  /** A worker has claimed the one run there is. */
  ghost predicate OneClaimed(s: System, run: Payload) {
    && s.workers == [Claimed(0)]
    && s.rows == [Run("elsewhere", "action", Running, 0, Some(0), None, Readable(run))]
  }

  /** A history of a create, a scan and a claim. */
  lemma RunIsClaimed(run: Payload) returns (steps: seq<Step>)
    requires FreshQueue(run.queue) && !run.queue.approval.required
    ensures OneClaimed(Play(Init(1), steps), run)
  {
    var create := Enqueue("elsewhere", "action", 0, Readable(run), NoneActive);
    var scan, claim := Scan(0, 0, 0), TakeClaim(0, 0);
    steps := [] + [create] + [scan] + [claim];
    DrainSafety.PlayOne(Init(1), [], create);
    DrainSafety.PlayOne(Init(1), [] + [create], scan);
    DrainSafety.PlayOne(Init(1), [] + [create] + [scan], claim);
    var s1 := Apply(Init(1), create);
    assert s1.rows == [NewRun("elsewhere", "action", 0, Readable(run))];
    assert Apply(s1, scan).workers == [Picked(0)];
  }

  lemma ClaimRunsItsCommands(s: System, run: Payload, policy: DrainProtocol.Policy)
    requires FailsOnce(run, policy) && OneClaimed(s, run)
    ensures var checked := Apply(Apply(s, Reread(0, true, policy)), CheckClaim(0, 0, 0));
            var t := Apply(checked, RunCommands(0, CommandFailed));
            && t.workers == [Working(0, Claim(s.rows[0], true, policy), 0, AfterCommands,
                                     AttemptCommands(run.queue, 0, CommandFailed))]
            && t.rows == s.rows
  {
    var claim := Claim(s.rows[0], true, policy);
    var loaded := Apply(s, Reread(0, true, policy));
    assert loaded.workers == [Loaded(0, claim)];
    assert Apply(loaded, CheckClaim(0, 0, 0)).workers == [Cleared(0, claim, 0, 0)];
  }

  lemma NothingLeftToTry(s: System, run: Payload, claim: Claim)
    requires !run.queue.canary.enabled && !run.queue.rollback.enabled
    requires s.workers == [Working(0, claim, 0, AfterCommands, AttemptCommands(run.queue, 0, CommandFailed))]
    ensures var t := Apply(Apply(s, RunCanary(0, Passed)), RunRollback(0, Passed));
            && t.workers == [Working(0, claim, 0, AfterRollback, AttemptCommands(run.queue, 0, CommandFailed))]
            && t.rows == s.rows
  {
    var a := AttemptCommands(run.queue, 0, CommandFailed);
    assert Apply(s, RunCanary(0, Passed)).workers == [Working(0, claim, 0, AfterCanary, a)];
  }

  lemma FailureIsSettled(s: System, run: Payload, policy: DrainProtocol.Policy, claim: Claim)
    requires FailsOnce(run, policy) && claim.run.params == Readable(run) && claim.policy == policy
    requires s.workers == [Working(0, claim, 0, AfterCommands, AttemptCommands(run.queue, 0, CommandFailed))]
    requires |s.rows| == 1
    ensures var t := Apply(Apply(Apply(s, RunCanary(0, Passed)), RunRollback(0, Passed)), SettleRun(0));
            |t.rows| == 1 && t.rows[0].state == Queued && t.rows[0].hostId == s.rows[0].hostId
  {
    NothingLeftToTry(s, run, claim);
    FailureIsRetried(run, policy);
  }

  lemma FailureIsRetried(run: Payload, policy: DrainProtocol.Policy)
    requires FailsOnce(run, policy)
    ensures Settle(run, AttemptCommands(run.queue, 0, CommandFailed), policy, 0).state == Queued
  {
  }

  /** An iteration that fails and puts the run back. */
  lemma ClaimIsRequeued(s: System, run: Payload, policy: DrainProtocol.Policy) returns (steps: seq<Step>)
    requires FailsOnce(run, policy) && OneClaimed(s, run)
    ensures NoCreates(steps)
    ensures var t := Play(s, steps); |t.rows| == 1 && t.rows[0].state == Queued && t.rows[0].hostId == "elsewhere"
  {
    steps := [Reread(0, true, policy), CheckClaim(0, 0, 0), RunCommands(0, CommandFailed), RunCanary(0, Passed),
              RunRollback(0, Passed), SettleRun(0)];
    PlaySix(s, steps);
    ClaimRunsItsCommands(s, run, policy);
    var working := Apply(Apply(Apply(s, steps[0]), steps[1]), steps[2]);
    FailureIsSettled(working, run, policy, Claim(s.rows[0], true, policy));
  }

  lemma PlaySix(s: System, steps: seq<Step>)
    requires |steps| == 6
    ensures Play(s, steps)
         == Apply(Apply(Apply(Apply(Apply(Apply(s, steps[0]), steps[1]), steps[2]), steps[3]), steps[4]), steps[5])
  {
    assert steps[..5][..4] == steps[..4] && steps[..4][..3] == steps[..3] && steps[..3][..2] == steps[..2];
    assert steps[..2][..1] == steps[..1] && steps[..1][..0] == [];
    assert Play(s, steps[..1]) == Apply(s, steps[0]);
    assert Play(s, steps[..2]) == Apply(Play(s, steps[..1]), steps[1]);
    assert Play(s, steps[..3]) == Apply(Play(s, steps[..2]), steps[2]);
    assert Play(s, steps[..4]) == Apply(Play(s, steps[..3]), steps[3]);
  }

  /** With one running run and nobody creating any, the global cap is exceeded by one: after these steps
      the run is claimed, and while the pass is under way a drain puts it back into the queue, where it
      had not been counted. */
  lemma GlobalCapIsExceeded(p: Pass, run: Payload, policy: DrainProtocol.Policy, a: PlanAction, now: int)
    returns (steps: seq<Step>, turns: seq<Turn>)
    requires Unhindered(p, a) && p.policy.maxQueueTotal == 1 && p.host != "elsewhere" && FailsOnce(run, policy)
    ensures var table, g := Play(Init(1), steps), Counting([], [], []);
            && |turns| == 1 && turns[0].action == a && NobodyCreates(g, turns)
            && CapOf(p, GlobalQueued) == 1 && FirstCount(p, table, g, GlobalQueued) == 0
            && Uncounted(table, g, GlobalQueued) == 1
            && Count(p, PassUpTo(p, Opening(p, table, g), turns, |turns|).table.rows, GlobalQueued) == 2
  {
    steps := RunIsClaimed(run);
    var table := Play(Init(1), steps);
    var gap := ClaimIsRequeued(table, run, policy);
    turns := OneTurnWith(gap, a, now);
    CountNothing(p, table);
    CountOne(table.rows, (r: Run) => r.state == Running);
    CountOne(Play(table, gap).rows, (r: Run) => Counted(p, GlobalQueued, r));
    OneTurnPass(p, table, turns, GlobalQueued);
  }

  lemma OneTurnWith(gap: seq<Step>, a: PlanAction, now: int) returns (turns: seq<Turn>)
    ensures |turns| == 1 && turns[0].gap == gap && turns[0].mid == [] && turns[0].late == []
    ensures turns[0].action == a && turns[0].now == now
    ensures NoCreates(gap) ==> NobodyCreates(Counting([], [], []), turns)
    ensures OthersCreate(turns, 1) == CreatesIn(gap)
  {
    turns := [Turn(gap, a, [], now, [])];
    assert Meanwhile(turns[0]) == gap && OthersCreate(turns, 0) == 0;
  }

  /** A single run that is over, or running elsewhere, and not of the last hour counts for nothing. */
  lemma CountNothing(p: Pass, table: System)
    requires |table.rows| == 1 && forall t: Tally :: !Counted(p, t, table.rows[0])
    ensures forall t: Tally :: Count(p, table.rows, t) == 0
  {
    forall t: Tally ensures Count(p, table.rows, t) == 0 { CountOne(table.rows, (r: Run) => Counted(p, t, r)); }
  }

  /** A history of a create that waits for an approval, and its rejection. */
  lemma RunIsRejected(host: string, run: Payload, at: int) returns (steps: seq<Step>)
    requires FreshQueue(run.queue) && run.queue.approval.required
    ensures var s := Play(Init(0), steps);
            && |s.rows| == 1 && SameTarget(s.rows[0], host, "other") && s.rows[0].requestedAt == at
            && s.rows[0].state == Canceled && s.rows[0].params.Readable?
  {
    var create, reject := Enqueue(host, "other", at, Readable(run), NoneActive), Reject(0, at, None, None);
    DrainSafety.PlayOne(Init(0), [], create);
    DrainSafety.PlayOne(Init(0), [] + [create], reject);
    steps := [] + [create] + [reject];
  }

  lemma RejectedIsReplayed(s: System, host: string, now: int) returns (gap: seq<Step>)
    requires |s.rows| == 1 && SameTarget(s.rows[0], host, "other")
    requires s.rows[0].state == Canceled && s.rows[0].params.Readable?
    ensures var t := Play(s, gap);
            && CreatesIn(gap) == |gap| == 1 && gap[0].Replay?
            && t.rows == s.rows + [ReplayOf(s.rows[0], 0, now)]
            && SameTarget(t.rows[1], host, "other") && t.rows[1].state == Queued
  {
    gap := [] + [Replay(0, now)];
    DrainSafety.PlayOne(s, [], Replay(0, now));
    assert gap[..0] == [] && CreatesIn(gap[..0]) == 0 && !ActiveFor(s.rows, host, "other");
  }

  /** With one replay by an operator during the pass, the cap of the host is exceeded by one: after these
      steps a run of the host is rejected, and while the pass is under way it is replayed. */
  lemma HostCapIsExceeded(p: Pass, run: Payload, at: int, a: PlanAction, now: int)
    returns (steps: seq<Step>, turns: seq<Turn>)
    requires Unhindered(p, a) && p.policy.maxQueuePerHost == 1 && a.id != "other" && at < p.hourAgo
    requires FreshQueue(run.queue) && run.queue.approval.required
    ensures var table, g := Play(Init(0), steps), Counting([], [], []);
            && |turns| == 1 && turns[0].action == a && OthersCreate(turns, 1) == 1
            && |turns[0].gap| == 1 && turns[0].gap[0].Replay? && turns[0].mid == [] && turns[0].late == []
            && CapOf(p, HostActive) == 1 && FirstCount(p, table, g, HostActive) == 0
            && Count(p, PassUpTo(p, Opening(p, table, g), turns, |turns|).table.rows, HostActive) == 2
  {
    steps := RunIsRejected(p.host, run, at);
    var table := Play(Init(0), steps);
    var gap := RejectedIsReplayed(table, p.host, now);
    turns := OneTurnWith(gap, a, now);
    CountNothing(p, table);
    CountAppend(table.rows, ReplayOf(table.rows[0], 0, now), (r: Run) => Counted(p, HostActive, r));
    OneTurnPass(p, table, turns, HostActive);
  }
}
