/** The queue metadata carried by every execute run, and the retry arithmetic over it
    (src/lib/remediate/queue-runtime.ts). Instants are milliseconds since the epoch. */
module QueueRuntime {
  import opened Common

  datatype ApprovalStatus = NoApproval | Pending | Approved | Rejected

  datatype ApprovalMeta = ApprovalMeta(
    required: bool,
    status: ApprovalStatus,
    reason: Option<string>,
    requestedAt: Option<int>,
    requestedByUserId: Option<string>,
    approvedAt: Option<int>,
    approvedByUserId: Option<string>)

  datatype CanaryMeta = CanaryMeta(
    enabled: bool,
    rolloutPercent: int,
    bucket: int,
    selected: bool,
    checks: seq<string>,
    lastCheckedAt: Option<int>,
    passed: Option<bool>,
    error: Option<string>)

  datatype RollbackMeta = RollbackMeta(
    enabled: bool,
    attempted: bool,
    succeeded: Option<bool>,
    commands: seq<string>,
    lastRunAt: Option<int>,
    error: Option<string>)

  datatype QueueMeta = QueueMeta(
    attempts: int,
    maxAttempts: int,
    nextAttemptAt: Option<int>,
    lastAttemptAt: Option<int>,
    lastError: Option<string>,
    dlq: bool,
    dlqReason: Option<string>,
    replayOfRunId: Option<string>,
    approval: ApprovalMeta,
    canary: CanaryMeta,
    rollback: RollbackMeta,
    autoQueued: bool,
    autoReason: Option<string>,
    autoTier: Option<string>)

  datatype Payload = Payload(
    actionId: string,
    commands: seq<string>,
    sourceCodes: seq<string>,
    rollbackNotes: seq<string>,
    profile: Option<string>,
    queue: QueueMeta)

  const DAY_SECONDS := 24 * 60 * 60

  /** Approval still missing: the run may not start whatever the clock says. */
  predicate AwaitsApproval(q: QueueMeta) {
    q.approval.required && q.approval.status != Approved
  }

  /** queueMetaIsReady */
  predicate Ready(q: QueueMeta, now: int) {
    !q.dlq && !AwaitsApproval(q) && (q.nextAttemptAt.Some? ==> q.nextAttemptAt.value <= now)
  }

  /** computeRetryDelaySeconds */
  function RetryDelaySeconds(attemptNumber: int, baseSeconds: int, maxSeconds: int): int {
    var attempt := ClampInt(attemptNumber, 1, 30);
    var base := ClampInt(baseSeconds, 1, DAY_SECONDS);
    var cap := ClampInt(maxSeconds, base, DAY_SECONDS);
    ClampInt(base * Pow2(attempt - 1), base, cap)
  }

  /** computeNextRetryAt */
  function NextRetryAt(now: int, delaySeconds: int): int {
    now + ClampInt(delaySeconds, 1, DAY_SECONDS) * 1000
  }

  /** shouldRetryAttempt */
  predicate ShouldRetry(attemptsAfterFailure: int, maxAttempts: int) {
    ClampInt(attemptsAfterFailure, 0, 20_000) < ClampInt(maxAttempts, 1, 20)
  }

  /** The first delay is the (clamped) base, each further one doubles until the cap is reached and
      then stays there, so delays never shrink; a cap configured below the base acts as the base. */
  lemma RetryDelayDoublesUpToCap(attemptNumber: int, baseSeconds: int, maxSeconds: int)
    ensures var base := Max(1, Min(baseSeconds, 86_400));
            var cap := Max(base, Min(maxSeconds, 86_400));
            var delay := RetryDelaySeconds(attemptNumber, baseSeconds, maxSeconds);
            var later := RetryDelaySeconds(attemptNumber + 1, baseSeconds, maxSeconds);
            && (attemptNumber <= 1 ==> delay == base)
            && base <= delay <= cap <= 86_400
            && (1 <= attemptNumber < 30 ==> later == Min(2 * delay, cap))
            && delay <= later
  {
    var base := ClampInt(baseSeconds, 1, DAY_SECONDS);
    Scaled(base, ClampInt(attemptNumber, 1, 30) - 1);
    Scaled(base, 0);
  }

  lemma Scaled(base: int, k: nat)
    requires base >= 1
    ensures base <= base * Pow2(k)
    ensures base * Pow2(k + 1) == 2 * (base * Pow2(k))
    ensures k == 0 ==> base * Pow2(k) == base
  {
    var p := Pow2(k);
    assert Pow2(k + 1) == 2 * p;
    assert base * p >= base * 1;
    assert base * (2 * p) == 2 * (base * p);
  }
}
