/** The command guard evaluated again at dequeue time (src/lib/remediate/guard.ts). A regular
    expression is its source text together with the set of commands it matches. */
module Guard {
  import opened Common

  datatype Pattern = Pattern(source: string, matches: string -> bool)

  datatype GuardPolicy = GuardPolicy(
    enforceAllowlist: bool,
    maxCommandsPerAction: int,
    maxCommandLength: int,
    allowlist: seq<Pattern>,
    blocklist: seq<Pattern>)

  datatype Reason =
    | TooManyCommands(count: nat, limit: int)
    | CommandTooLong(length: nat, limit: int)
    | BlockedPattern(source: string)
    | NotAllowlisted

  datatype Issue = Issue(index: int, command: string, reason: Reason)

  predicate Skippable(raw: string) {
    var t := Trim(raw);
    t == [] || t[0] == '#'
  }

  /** A blank line, or a comment: the first character that is no white space, if any, is a hash. */
  predicate SaysNothing(raw: string) {
    AllSpace(raw) || exists i | 0 <= i < |raw| :: raw[i] == '#' && AllSpace(raw[..i])
  }

  lemma SpaceBefore(raw: string, i: nat, k: nat)
    requires i < |raw| && k <= |raw| && AllSpace(raw[..k])
    ensures i < k ==> IsSpace(raw[i])
  {
    if i < k { assert raw[..k][i] == raw[i]; }
  }

  lemma SkippableSaysNothing(raw: string)
    ensures Skippable(raw) <==> SaysNothing(raw)
  {
    var i, j := TrimCutsSpaceOnly(raw);
    TrimmedAway(raw);
    if Trim(raw) != "" {
      assert raw[i] == Trim(raw)[0] && !IsSpace(raw[i]);
      forall k | 0 <= k < |raw| && raw[k] == '#' && AllSpace(raw[..k]) ensures k == i {
        SpaceBefore(raw, i, k);
        SpaceBefore(raw, k, i);
      }
    }
  }

  predicate MatchesSome(patterns: seq<Pattern>, raw: string) {
    exists i | 0 <= i < |patterns| :: patterns[i].matches(raw)
  }

  /** What the guard promises about one command it lets through. */
  predicate CommandAccepted(raw: string, policy: GuardPolicy) {
    SaysNothing(raw)
    || (&& |raw| <= policy.maxCommandLength
        && !MatchesSome(policy.blocklist, raw)
        && (policy.enforceAllowlist ==> MatchesSome(policy.allowlist, raw)))
  }

  /** What the guard promises about a whole command list. */
  predicate Accepted(commands: seq<string>, policy: GuardPolicy) {
    && |commands| <= policy.maxCommandsPerAction
    && forall c | c in commands :: CommandAccepted(c, policy)
  }

  /** The reason is the true one, and no check that runs earlier would have fired. */
  predicate Truthful(issue: Issue, commands: seq<string>, policy: GuardPolicy) {
    match issue.reason
    case TooManyCommands(count, limit) =>
      issue.index == -1 && count == |commands| && limit == policy.maxCommandsPerAction && count > limit
    case CommandTooLong(length, limit) =>
      && 0 <= issue.index < |commands| && issue.command == commands[issue.index]
      && !SaysNothing(issue.command) && length == |issue.command|
      && limit == policy.maxCommandLength && length > limit
    case BlockedPattern(source) =>
      && 0 <= issue.index < |commands| && issue.command == commands[issue.index]
      && !SaysNothing(issue.command) && |issue.command| <= policy.maxCommandLength
      && exists i | 0 <= i < |policy.blocklist| ::
           && policy.blocklist[i].source == source
           && policy.blocklist[i].matches(issue.command)
           && forall j | 0 <= j < i :: !policy.blocklist[j].matches(issue.command)
    case NotAllowlisted =>
      && 0 <= issue.index < |commands| && issue.command == commands[issue.index]
      && !SaysNothing(issue.command) && |issue.command| <= policy.maxCommandLength
      && !MatchesSome(policy.blocklist, issue.command)
      && policy.enforceAllowlist && !MatchesSome(policy.allowlist, issue.command)
  }

  function ReasonText(r: Reason): string {
    match r
    case TooManyCommands(count, limit) => "too_many_commands:" + Decimal(count) + ">" + IntText(limit)
    case CommandTooLong(length, limit) => "command_too_long:" + Decimal(length) + ">" + IntText(limit)
    case BlockedPattern(source) => "blocked_pattern:" + source
    case NotAllowlisted => "not_allowlisted"
  }

  /** Index of the first pattern that matches, or the length of the list. */
  function FirstMatch(patterns: seq<Pattern>, raw: string): (k: nat)
    ensures k <= |patterns|
    ensures k < |patterns| ==> patterns[k].matches(raw)
    ensures forall j | 0 <= j < k :: !patterns[j].matches(raw)
  {
    if patterns == [] || patterns[0].matches(raw) then 0 else 1 + FirstMatch(patterns[1..], raw)
  }

  function CommandIssue(index: int, raw: string, policy: GuardPolicy): (r: Option<Issue>)
    ensures r.Some? ==> r.value.index == index
  {
    if Skippable(raw) then None
    else if |raw| > policy.maxCommandLength then
      Some(Issue(index, raw, CommandTooLong(|raw|, policy.maxCommandLength)))
    else
      var k := FirstMatch(policy.blocklist, raw);
      if k < |policy.blocklist| then Some(Issue(index, raw, BlockedPattern(policy.blocklist[k].source)))
      else if policy.enforceAllowlist && FirstMatch(policy.allowlist, raw) == |policy.allowlist| then
        Some(Issue(index, raw, NotAllowlisted))
      else None
  }

  /** The issue is the one its command gives rise to. */
  predicate IssueOf(issue: Issue, commands: seq<string>, policy: GuardPolicy) {
    0 <= issue.index < |commands| && CommandIssue(issue.index, commands[issue.index], policy) == Some(issue)
  }

  /** The issues of the first n commands, in command order. */
  function IssuesUpTo(commands: seq<string>, policy: GuardPolicy, n: nat): (r: seq<Issue>)
    requires n <= |commands|
    ensures forall k | 0 <= k < |r| :: r[k].index < n && IssueOf(r[k], commands, policy)
    ensures forall j, k | 0 <= j < k < |r| :: r[j].index < r[k].index
  {
    if n == 0 then []
    else
      var before := IssuesUpTo(commands, policy, n - 1);
      match CommandIssue(n - 1, commands[n - 1], policy)
      case None => before
      case Some(issue) => before + [issue]
  }

  function Issues(commands: seq<string>, policy: GuardPolicy): seq<Issue> {
    if |commands| > policy.maxCommandsPerAction then
      [Issue(-1, "", TooManyCommands(|commands|, policy.maxCommandsPerAction))]
    else IssuesUpTo(commands, policy, |commands|)
  }

  lemma CommandIssueMeaning(commands: seq<string>, i: nat, policy: GuardPolicy)
    requires i < |commands|
    ensures CommandIssue(i, commands[i], policy).None? <==> CommandAccepted(commands[i], policy)
    ensures var r := CommandIssue(i, commands[i], policy);
            r.Some? ==> r.value.index == i && Truthful(r.value, commands, policy)
  {
    var raw := commands[i];
    SkippableSaysNothing(raw);
    var k := FirstMatch(policy.blocklist, raw);
    var a := FirstMatch(policy.allowlist, raw);
  }

  /** Every command with an issue is reported. */
  lemma {:induction false} IssuesAreComplete(commands: seq<string>, policy: GuardPolicy, n: nat, i: nat)
    requires i < n <= |commands| && CommandIssue(i, commands[i], policy).Some?
    ensures CommandIssue(i, commands[i], policy).value in IssuesUpTo(commands, policy, n)
  {
    if i < n - 1 {
      IssuesAreComplete(commands, policy, n - 1, i);
    } else {
      var issue := CommandIssue(i, commands[i], policy).value;
      assert IssuesUpTo(commands, policy, n) == IssuesUpTo(commands, policy, i) + [issue];
    }
  }

  /** The guard reports nothing exactly on the lists it promises to accept; otherwise it reports
      the rejected commands, each once and in order, with a true reason. */
  lemma GuardIsExact(commands: seq<string>, policy: GuardPolicy)
    ensures var issues := Issues(commands, policy);
            && (issues == [] <==> Accepted(commands, policy))
            && (forall k | 0 <= k < |issues| :: Truthful(issues[k], commands, policy))
            && (forall j, k | 0 <= j < k < |issues| :: issues[j].index < issues[k].index)
            && (|commands| <= policy.maxCommandsPerAction ==>
                  forall i | 0 <= i < |commands| ::
                    !CommandAccepted(commands[i], policy) <==> exists k | 0 <= k < |issues| :: issues[k].index == i)
  {
    if |commands| <= policy.maxCommandsPerAction {
      var issues := Issues(commands, policy);
      forall k | 0 <= k < |issues|
        ensures Truthful(issues[k], commands, policy) && !CommandAccepted(commands[issues[k].index], policy)
      {
        assert issues == IssuesUpTo(commands, policy, |commands|);
        assert IssueOf(issues[k], commands, policy);
        CommandIssueMeaning(commands, issues[k].index, policy);
      }
      forall i | 0 <= i < |commands| && !CommandAccepted(commands[i], policy)
        ensures exists k | 0 <= k < |issues| :: issues[k].index == i
      {
        CommandIssueMeaning(commands, i, policy);
        IssuesAreComplete(commands, policy, |commands|, i);
        var k :| 0 <= k < |issues| && issues[k] == CommandIssue(i, commands[i], policy).value;
        assert issues[k].index == i;
      }
      assert issues != [] ==> !CommandAccepted(commands[issues[0].index], policy);
      assert forall c | c in commands :: exists i | 0 <= i < |commands| :: commands[i] == c;
    }
  }

  /** validateRemediationCommands */
  method ValidateCommands(commands: seq<string>, policy: GuardPolicy) returns (issues: seq<Issue>)
    ensures issues == Issues(commands, policy)
  {
    issues := [];
    if |commands| > policy.maxCommandsPerAction {
      return [Issue(-1, "", TooManyCommands(|commands|, policy.maxCommandsPerAction))];
    }
    for idx := 0 to |commands|
      invariant issues == IssuesUpTo(commands, policy, idx)
    {
      var raw := commands[idx];
      if Skippable(raw) { continue; }
      if |raw| > policy.maxCommandLength {
        issues := issues + [Issue(idx, raw, CommandTooLong(|raw|, policy.maxCommandLength))];
        continue;
      }
      var denied := FirstMatch(policy.blocklist, raw);
      if denied < |policy.blocklist| {
        issues := issues + [Issue(idx, raw, BlockedPattern(policy.blocklist[denied].source))];
        continue;
      }
      if policy.enforceAllowlist {
        var allowed := FirstMatch(policy.allowlist, raw) < |policy.allowlist|;
        if !allowed {
          issues := issues + [Issue(idx, raw, NotAllowlisted)];
        }
      }
    }
  }
}
