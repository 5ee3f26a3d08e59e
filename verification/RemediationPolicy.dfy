/** The remediation policy: environment values clamped into range, then host overrides
    (src/lib/remediate/policy.ts). A setting is None when it is missing or not a number. */
module RemediationPolicy {
  import opened Common
  import opened QueueRuntime
  import opened CanaryBucket

  datatype Policy = Policy(
    dryRunMaxAgeMinutes: int,
    executeCooldownMinutes: int,
    maxExecutePerHour: int,
    timelineDedupeWindowMinutes: int,
    maxQueuePerHost: int,
    maxQueueTotal: int,
    queueTtlMinutes: int,
    maxRetryAttempts: int,
    retryBackoffSeconds: int,
    retryBackoffMaxSeconds: int,
    commandTimeoutMs: int,
    maxBufferBytes: int,
    queueAutoDrain: bool,
    autonomousEnabled: bool,
    autonomousMaxTier: Tier,
    autonomousMaxQueuedPerCycle: int,
    autonomousMaxQueuedPerHour: int,
    approvalRiskThreshold: Threshold,
    canaryRolloutPercent: int,
    canaryRequireChecks: bool,
    autoRollback: bool)

  datatype Settings = Settings(
    dryRunMaxAgeMinutes: Option<int>,
    executeCooldownMinutes: Option<int>,
    maxExecutePerHour: Option<int>,
    timelineDedupeWindowMinutes: Option<int>,
    maxQueuePerHost: Option<int>,
    maxQueueTotal: Option<int>,
    queueTtlMinutes: Option<int>,
    maxRetryAttempts: Option<int>,
    retryBackoffSeconds: Option<int>,
    retryBackoffMaxSeconds: Option<int>,
    commandTimeoutMs: Option<int>,
    maxBufferBytes: Option<int>,
    queueAutoDrain: Option<bool>,
    autonomousEnabled: Option<bool>,
    autonomousMaxTier: Option<Tier>,
    autonomousMaxQueuedPerCycle: Option<int>,
    autonomousMaxQueuedPerHour: Option<int>,
    approvalRiskThreshold: Option<Threshold>,
    canaryRolloutPercent: Option<int>,
    canaryRequireChecks: Option<bool>,
    autoRollback: Option<bool>)

  /** An override replaces the base value only once it is clamped. */
  function Override(v: Option<int>, lo: int, hi: int, base: int): int {
    if v.Some? then ClampInt(v.value, lo, hi) else base
  }

  /** readRemediationPolicy */
  function ReadPolicy(env: Settings): Policy {
    var backoff := ClampInt(env.retryBackoffSeconds.GetOr(15), 1, 60 * 60);
    Policy(
      ClampInt(env.dryRunMaxAgeMinutes.GetOr(30), 1, 24 * 60),
      ClampInt(env.executeCooldownMinutes.GetOr(5), 0, 24 * 60),
      ClampInt(env.maxExecutePerHour.GetOr(6), 1, 500),
      ClampInt(env.timelineDedupeWindowMinutes.GetOr(30), 1, 24 * 60),
      ClampInt(env.maxQueuePerHost.GetOr(4), 1, 200),
      ClampInt(env.maxQueueTotal.GetOr(200), 1, 10_000),
      ClampInt(env.queueTtlMinutes.GetOr(120), 1, 7 * 24 * 60),
      ClampInt(env.maxRetryAttempts.GetOr(3), 1, 20),
      backoff,
      ClampInt(env.retryBackoffMaxSeconds.GetOr(15 * 60), backoff, 24 * 60 * 60),
      ClampInt(env.commandTimeoutMs.GetOr(20_000), 1_000, 10 * 60 * 1000),
      ClampInt(env.maxBufferBytes.GetOr(512_000), 32_000, 8_000_000),
      env.queueAutoDrain.GetOr(true),
      env.autonomousEnabled.GetOr(false),
      env.autonomousMaxTier.GetOr(SafeAuto),
      ClampInt(env.autonomousMaxQueuedPerCycle.GetOr(1), 1, 20),
      ClampInt(env.autonomousMaxQueuedPerHour.GetOr(4), 1, 500),
      env.approvalRiskThreshold.GetOr(AtLeast(Medium)),
      ClampInt(env.canaryRolloutPercent.GetOr(25), 1, 100),
      env.canaryRequireChecks.GetOr(true),
      env.autoRollback.GetOr(true))
  }

  /** applyRemediationPolicyOverrides */
  function ApplyOverrides(base: Policy, o: Settings): Policy {
    var backoff := Override(o.retryBackoffSeconds, 1, 60 * 60, base.retryBackoffSeconds);
    Policy(
      Override(o.dryRunMaxAgeMinutes, 1, 24 * 60, base.dryRunMaxAgeMinutes),
      Override(o.executeCooldownMinutes, 0, 24 * 60, base.executeCooldownMinutes),
      Override(o.maxExecutePerHour, 1, 500, base.maxExecutePerHour),
      Override(o.timelineDedupeWindowMinutes, 1, 24 * 60, base.timelineDedupeWindowMinutes),
      Override(o.maxQueuePerHost, 1, 200, base.maxQueuePerHost),
      Override(o.maxQueueTotal, 1, 10_000, base.maxQueueTotal),
      Override(o.queueTtlMinutes, 1, 7 * 24 * 60, base.queueTtlMinutes),
      Override(o.maxRetryAttempts, 1, 20, base.maxRetryAttempts),
      backoff,
      Override(o.retryBackoffMaxSeconds, backoff, 24 * 60 * 60, base.retryBackoffMaxSeconds),
      Override(o.commandTimeoutMs, 1_000, 10 * 60 * 1000, base.commandTimeoutMs),
      Override(o.maxBufferBytes, 32_000, 8_000_000, base.maxBufferBytes),
      o.queueAutoDrain.GetOr(base.queueAutoDrain),
      o.autonomousEnabled.GetOr(base.autonomousEnabled),
      o.autonomousMaxTier.GetOr(base.autonomousMaxTier),
      Override(o.autonomousMaxQueuedPerCycle, 1, 20, base.autonomousMaxQueuedPerCycle),
      Override(o.autonomousMaxQueuedPerHour, 1, 500, base.autonomousMaxQueuedPerHour),
      o.approvalRiskThreshold.GetOr(base.approvalRiskThreshold),
      Override(o.canaryRolloutPercent, 1, 100, base.canaryRolloutPercent),
      o.canaryRequireChecks.GetOr(base.canaryRequireChecks),
      o.autoRollback.GetOr(base.autoRollback))
  }

  function NoSettings(): Settings {
    Settings(None, None, None, None, None, None, None, None, None, None, None,
             None, None, None, None, None, None, None, None, None, None)
  }

  /** The ranges the rest of the system relies on. */
  predicate InRange(p: Policy) {
    && 1 <= p.dryRunMaxAgeMinutes <= 24 * 60 && 0 <= p.executeCooldownMinutes <= 24 * 60
    && 1 <= p.timelineDedupeWindowMinutes <= 24 * 60
    && 1_000 <= p.commandTimeoutMs <= 10 * 60 * 1000 && 32_000 <= p.maxBufferBytes <= 8_000_000
    && 1 <= p.maxExecutePerHour <= 500 && 1 <= p.maxQueuePerHost <= 200 && 1 <= p.maxQueueTotal <= 10_000
    && 1 <= p.queueTtlMinutes <= 7 * 24 * 60 && 1 <= p.maxRetryAttempts <= 20
    && 1 <= p.retryBackoffSeconds <= 60 * 60 && 1 <= p.retryBackoffMaxSeconds <= 24 * 60 * 60
    && 1 <= p.autonomousMaxQueuedPerCycle <= 20 && 1 <= p.autonomousMaxQueuedPerHour <= 500
    && 1 <= p.canaryRolloutPercent <= 100
  }

  /** Whatever the environment and the host ask for, every setting ends up in its range, and a setting
      the host leaves open is the inherited one. */
  lemma PolicyStaysInRange(env: Settings, o: Settings)
    ensures InRange(ReadPolicy(env)) && InRange(ApplyOverrides(ReadPolicy(env), o))
    ensures ApplyOverrides(ReadPolicy(env), NoSettings()) == ReadPolicy(env)
  {
    var base := ReadPolicy(env);
    assert InRange(base);
  }

  /** The backoff cap ends up below the backoff exactly when a host raises the backoff above the
      inherited cap without setting a cap of its own; the retry delay is then the backoff, on every
      attempt. Otherwise the delay stays between the two. */
  lemma OverridesCanCrossTheBackoffBounds(env: Settings, o: Settings, attempt: int)
    ensures var base := ReadPolicy(env);
            var p := ApplyOverrides(base, o);
            var delay := RetryDelaySeconds(attempt, p.retryBackoffSeconds, p.retryBackoffMaxSeconds);
            && base.retryBackoffSeconds <= base.retryBackoffMaxSeconds
            && (p.retryBackoffMaxSeconds < p.retryBackoffSeconds <==>
                  && o.retryBackoffMaxSeconds.None? && o.retryBackoffSeconds.Some?
                  && ClampInt(o.retryBackoffSeconds.value, 1, 60 * 60) > base.retryBackoffMaxSeconds)
            && (p.retryBackoffMaxSeconds < p.retryBackoffSeconds ==> delay == p.retryBackoffSeconds)
            && (p.retryBackoffSeconds <= p.retryBackoffMaxSeconds ==>
                  p.retryBackoffSeconds <= delay <= p.retryBackoffMaxSeconds)
  {
    var p := ApplyOverrides(ReadPolicy(env), o);
    PolicyStaysInRange(env, o);
    RetryDelayDoublesUpToCap(attempt, p.retryBackoffSeconds, p.retryBackoffMaxSeconds);
  }

  /** The setting is the default when it is missing, and otherwise the number given or the end of the
      range nearest to it. */
  predicate Setting(v: Option<int>, default: int, lo: int, hi: int, result: int) {
    result == if v.None? then default else Max(lo, Min(v.value, hi))
  }

  /** What the environment makes of each setting: defaults and ranges. */
  lemma EnvironmentIsReadExactly(env: Settings)
    ensures var p := ReadPolicy(env);
            && Setting(env.dryRunMaxAgeMinutes, 30, 1, 1440, p.dryRunMaxAgeMinutes)
            && Setting(env.executeCooldownMinutes, 5, 0, 1440, p.executeCooldownMinutes)
            && Setting(env.maxExecutePerHour, 6, 1, 500, p.maxExecutePerHour)
            && Setting(env.timelineDedupeWindowMinutes, 30, 1, 1440, p.timelineDedupeWindowMinutes)
            && Setting(env.maxQueuePerHost, 4, 1, 200, p.maxQueuePerHost)
            && Setting(env.maxQueueTotal, 200, 1, 10_000, p.maxQueueTotal)
            && Setting(env.queueTtlMinutes, 120, 1, 10_080, p.queueTtlMinutes)
            && Setting(env.maxRetryAttempts, 3, 1, 20, p.maxRetryAttempts)
            && Setting(env.retryBackoffSeconds, 15, 1, 3600, p.retryBackoffSeconds)
            && Setting(env.retryBackoffMaxSeconds, Max(900, p.retryBackoffSeconds), p.retryBackoffSeconds, 86_400,
                       p.retryBackoffMaxSeconds)
            && Setting(env.commandTimeoutMs, 20_000, 1_000, 600_000, p.commandTimeoutMs)
            && Setting(env.maxBufferBytes, 512_000, 32_000, 8_000_000, p.maxBufferBytes)
            && Setting(env.autonomousMaxQueuedPerCycle, 1, 1, 20, p.autonomousMaxQueuedPerCycle)
            && Setting(env.autonomousMaxQueuedPerHour, 4, 1, 500, p.autonomousMaxQueuedPerHour)
            && Setting(env.canaryRolloutPercent, 25, 1, 100, p.canaryRolloutPercent)
            && p.queueAutoDrain == (env.queueAutoDrain != Some(false))
            && p.autonomousEnabled == (env.autonomousEnabled == Some(true))
            && p.canaryRequireChecks == (env.canaryRequireChecks != Some(false))
            && p.autoRollback == (env.autoRollback != Some(false))
            && (env.autonomousMaxTier == None || env.autonomousMaxTier == Some(p.autonomousMaxTier))
            && (env.autonomousMaxTier == None ==> p.autonomousMaxTier == SafeAuto)
            && (env.approvalRiskThreshold == None || env.approvalRiskThreshold == Some(p.approvalRiskThreshold))
            && (env.approvalRiskThreshold == None ==> p.approvalRiskThreshold == AtLeast(Medium))
  {
  }

  /** What a host's overrides make of each setting: the inherited value where it says nothing, and the
      same ranges. */
  lemma OverridesAreAppliedExactly(env: Settings, o: Settings)
    ensures var b, p := ReadPolicy(env), ApplyOverrides(ReadPolicy(env), o);
            && Setting(o.dryRunMaxAgeMinutes, b.dryRunMaxAgeMinutes, 1, 1440, p.dryRunMaxAgeMinutes)
            && Setting(o.executeCooldownMinutes, b.executeCooldownMinutes, 0, 1440, p.executeCooldownMinutes)
            && Setting(o.maxExecutePerHour, b.maxExecutePerHour, 1, 500, p.maxExecutePerHour)
            && Setting(o.timelineDedupeWindowMinutes, b.timelineDedupeWindowMinutes, 1, 1440,
                       p.timelineDedupeWindowMinutes)
            && Setting(o.maxQueuePerHost, b.maxQueuePerHost, 1, 200, p.maxQueuePerHost)
            && Setting(o.maxQueueTotal, b.maxQueueTotal, 1, 10_000, p.maxQueueTotal)
            && Setting(o.queueTtlMinutes, b.queueTtlMinutes, 1, 10_080, p.queueTtlMinutes)
            && Setting(o.maxRetryAttempts, b.maxRetryAttempts, 1, 20, p.maxRetryAttempts)
            && Setting(o.retryBackoffSeconds, b.retryBackoffSeconds, 1, 3600, p.retryBackoffSeconds)
            && Setting(o.retryBackoffMaxSeconds, b.retryBackoffMaxSeconds, p.retryBackoffSeconds, 86_400,
                       p.retryBackoffMaxSeconds)
            && Setting(o.commandTimeoutMs, b.commandTimeoutMs, 1_000, 600_000, p.commandTimeoutMs)
            && Setting(o.maxBufferBytes, b.maxBufferBytes, 32_000, 8_000_000, p.maxBufferBytes)
            && Setting(o.autonomousMaxQueuedPerCycle, b.autonomousMaxQueuedPerCycle, 1, 20,
                       p.autonomousMaxQueuedPerCycle)
            && Setting(o.autonomousMaxQueuedPerHour, b.autonomousMaxQueuedPerHour, 1, 500,
                       p.autonomousMaxQueuedPerHour)
            && Setting(o.canaryRolloutPercent, b.canaryRolloutPercent, 1, 100, p.canaryRolloutPercent)
            && p.queueAutoDrain == o.queueAutoDrain.GetOr(b.queueAutoDrain)
            && p.autonomousEnabled == o.autonomousEnabled.GetOr(b.autonomousEnabled)
            && p.autonomousMaxTier == o.autonomousMaxTier.GetOr(b.autonomousMaxTier)
            && p.approvalRiskThreshold == o.approvalRiskThreshold.GetOr(b.approvalRiskThreshold)
            && p.canaryRequireChecks == o.canaryRequireChecks.GetOr(b.canaryRequireChecks)
            && p.autoRollback == o.autoRollback.GetOr(b.autoRollback)
  {
  }
}
