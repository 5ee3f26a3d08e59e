/** Running a command list (src/lib/remediate/runner.ts): skip blank lines and comments, stop at the
    first failure. What the shell does with a command is an oracle. */
module Runner {
  import opened Common
  import Guard

  /** How the shell ended: success, or an exit code. */
  datatype Exit = Ok | Failed(code: int)

  /** The oracle may answer the same command differently at different places of the list. */
  type Shell = (nat, string) -> Exit

  datatype Result = Result(command: string, normalized: Option<string>, ok: bool, exitCode: int, skipped: bool)

  /** normalizeCommand */
  function NormalizeCommand(raw: string): Option<string> {
    var trimmed := Trim(raw);
    if trimmed == "" || trimmed[0] == '#' then None
    else if "sudo " <= trimmed then Some("sudo -n " + trimmed[5..])
    else Some(trimmed)
  }

  function ResultOf(commands: seq<string>, shell: Shell, i: nat): Result
    requires i < |commands|
  {
    match NormalizeCommand(commands[i])
    case None => Result(commands[i], None, true, 0, true)
    case Some(n) =>
      match shell(i, n)
      case Ok => Result(commands[i], Some(n), true, 0, false)
      case Failed(code) => Result(commands[i], Some(n), false, code, false)
  }

  /** The results up to and including the first failure, if any. */
  ghost predicate StopsAtFirstFailure(commands: seq<string>, shell: Shell, ok: bool, results: seq<Result>) {
    && |results| <= |commands|
    && (forall i | 0 <= i < |results| :: results[i] == ResultOf(commands, shell, i))
    && (forall i | 0 <= i < |results| - 1 :: results[i].ok)
    && (if ok then |results| == |commands| && (|results| > 0 ==> results[|results| - 1].ok)
        else |results| > 0 && !results[|results| - 1].ok)
  }

  /** executeRemediationCommands */
  method ExecuteRemediationCommands(commands: seq<string>, shell: Shell) returns (ok: bool, results: seq<Result>)
    ensures StopsAtFirstFailure(commands, shell, ok, results)
  {
    results, ok := [], true;
    for i := 0 to |commands|
      invariant ok && |results| == i
      invariant forall j | 0 <= j < i :: results[j] == ResultOf(commands, shell, j) && results[j].ok
    {
      var raw := commands[i];
      var normalized := NormalizeCommand(raw);
      if normalized == None {
        results := results + [Result(raw, None, true, 0, true)];
        continue;
      }
      match shell(i, normalized.value)
      case Ok => results := results + [Result(raw, normalized, true, 0, false)];
      case Failed(code) =>
        results := results + [Result(raw, normalized, false, code, false)];
        ok := false;
        assert results[i] == ResultOf(commands, shell, i);
        break;
    }
  }

  /** The shell gets the line without the white space around it, and with sudo kept from asking for a
      password; it does not get blank lines and comments. */
  ghost predicate ShellGets(raw: string, line: Option<string>) {
    && (line == None <==> Guard.SaysNothing(raw))
    && (line.Some? ==>
          && ("sudo " <= line.value ==> "sudo -n " <= line.value)
          && exists i, j | 0 <= i <= j <= |raw| :: IsBody(raw, i, j) && SameButForSudo(raw[i..j], line.value))
  }

  /** What stands between i and j is the line without the white space around it. */
  predicate IsBody(raw: string, i: nat, j: nat)
    requires i <= j <= |raw|
  {
    AllSpace(raw[..i]) && AllSpace(raw[j..]) && Trimmed(raw[i..j])
  }

  predicate SameButForSudo(body: string, line: string) {
    if "sudo " <= body then "sudo -n " <= line && line[|"sudo -n "|..] == body[|"sudo "|..] else line == body
  }

  lemma NormalizedIsWhatTheShellGets(raw: string)
    ensures ShellGets(raw, NormalizeCommand(raw))
  {
    Guard.SkippableSaysNothing(raw);
    var i, j := TrimCutsSpaceOnly(raw);
    assert IsBody(raw, i, j);
  }

  predicate Works(raw: string, shell: Shell, i: nat) {
    NormalizeCommand(raw).Some? ==> shell(i, NormalizeCommand(raw).value) == Ok
  }

  /** A run is successful exactly when every line that the shell would get works. */
  lemma SucceedsExactlyWhen(commands: seq<string>, shell: Shell, ok: bool, results: seq<Result>)
    requires StopsAtFirstFailure(commands, shell, ok, results)
    ensures ok <==> forall i | 0 <= i < |commands| :: Works(commands[i], shell, i)
  {
    forall i | 0 <= i < |results| ensures results[i].ok <==> Works(commands[i], shell, i) {
      assert results[i] == ResultOf(commands, shell, i);
    }
    if ok {
      forall i | 0 <= i < |commands| ensures Works(commands[i], shell, i) { assert results[i].ok; }
    } else {
      assert !results[|results| - 1].ok;
    }
  }

  /** The runner skips exactly the lines the guard does not look at, so with a list the guard
      accepts, every line that reaches the shell is short enough, not blocked and, when the allow
      list is enforced, on it. */
  lemma OnlyVettedCommandsRun(commands: seq<string>, shell: Shell, ok: bool, results: seq<Result>,
                              policy: Guard.GuardPolicy, i: nat)
    requires StopsAtFirstFailure(commands, shell, ok, results) && Guard.Accepted(commands, policy) && i < |results|
    ensures results[i].command == commands[i] && (results[i].skipped <==> Guard.SaysNothing(commands[i]))
    ensures results[i].skipped ==> results[i].ok && results[i].exitCode == 0
    ensures ShellGets(commands[i], results[i].normalized)
    ensures !results[i].skipped ==>
              && results[i].normalized.Some?
              && shell(i, results[i].normalized.value)
                 == (if results[i].ok then Ok else Failed(results[i].exitCode))
              && |commands[i]| <= policy.maxCommandLength
              && !Guard.MatchesSome(policy.blocklist, commands[i])
              && (policy.enforceAllowlist ==> Guard.MatchesSome(policy.allowlist, commands[i]))
  {
    NormalizedIsWhatTheShellGets(commands[i]);
    assert Guard.CommandAccepted(commands[i], policy);
  }
}
