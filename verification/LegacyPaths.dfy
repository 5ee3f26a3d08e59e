/** The rewriting of command lines from an older release (src/lib/remediate/queue-runtime.ts):
    backup files once kept under /root move to the backup directory, which is then created first. */
module LegacyPaths {
  import opened Common
  import opened JsonText

  const BACKUP_DIR := "/var/lib/vps-sentry/remediation-backups/"
  const SSHD := "sshd_config.backup."
  const SUDOERS := "sudoers.backup."
  const FORENSICS := "vps-sentry-forensics-"
  const INSTALL := "install -d -m 700 "
  const INSTALL_PATH := "/var/lib/vps-sentry/remediation-backups"
  const ENSURE := INSTALL + INSTALL_PATH

  function LegacyPath(name: string): string { "/root/" + name }

  function BackupPath(name: string): string { BACKUP_DIR + name }

  /** String.prototype.replace with a global pattern: left to right, without overlap. */
  function Replace(s: string, name: string): string {
    if s == "" then ""
    else if LegacyPath(name) <= s then BackupPath(name) + Replace(s[|LegacyPath(name)|..], name)
    else [s[0]] + Replace(s[1..], name)
  }

  /** migrateLegacyCommandPath */
  function Migrate(command: string): string {
    Replace(Replace(Replace(command, SSHD), SUDOERS), FORENSICS)
  }

  /** The parts with the text between any two of them. */
  function Joined(parts: seq<string>, text: string): string {
    if parts == [] then "" else if |parts| == 1 then parts[0] else parts[0] + text + Joined(parts[1..], text)
  }

  /** The parts are what is left between the occurrences of the text, found from the left. */
  ghost predicate LeftOver(parts: seq<string>, text: string) {
    parts != [] && forall i | 0 <= i < |parts| :: !Occurs(text, parts[i])
  }

  lemma JoinedFirst(c: char, parts: seq<string>, text: string)
    requires parts != []
    ensures Joined([[c] + parts[0]] + parts[1..], text) == [c] + Joined(parts, text)
  {
    var more := [[c] + parts[0]] + parts[1..];
    if |parts| > 1 {
      assert more[1..] == parts[1..];
      assert Joined(more, text) == [c] + parts[0] + text + Joined(parts[1..], text);
    }
  }

  lemma JoinedStartsWithItsFirst(parts: seq<string>, text: string)
    requires parts != []
    ensures parts[0] <= Joined(parts, text)
  {
  }

  lemma NoMatchInFront(c: char, part: string, text: string, whole: string)
    requires text != "" && part <= whole && !Occurs(text, part) && !(text <= [c] + whole)
    ensures !Occurs(text, [c] + part)
  {
    var longer := [c] + part;
    assert longer <= [c] + whole;
    forall k | 0 < k <= |longer| ensures !(text <= longer[k..]) { assert longer[k..] == part[k - 1..]; }
  }

  /** The parts tell the command and what replacing makes of it. */
  ghost predicate Tells(parts: seq<string>, was: string, now: string, s: string, replaced: string) {
    LeftOver(parts, was) && s == Joined(parts, was) && replaced == Joined(parts, now)
  }

  lemma TellsMatch(parts: seq<string>, was: string, now: string, s: string, replaced: string)
    requires was != "" && Tells(parts, was, now, s, replaced)
    ensures Tells([""] + parts, was, now, was + s, now + replaced)
  {
    var more := [""] + parts;
    assert more[1..] == parts;
    assert Joined(more, was) == "" + was + Joined(parts, was) && Joined(more, now) == "" + now + Joined(parts, now);
  }

  lemma TellsOther(c: char, parts: seq<string>, was: string, now: string, s: string, replaced: string)
    requires was != "" && Tells(parts, was, now, s, replaced) && !(was <= [c] + s)
    ensures Tells([[c] + parts[0]] + parts[1..], was, now, [c] + s, [c] + replaced)
  {
    JoinedFirst(c, parts, was);
    JoinedFirst(c, parts, now);
    JoinedStartsWithItsFirst(parts, was);
    NoMatchInFront(c, parts[0], was, s);
  }

  lemma {:induction false} ReplacingJoins(s: string, name: string, was: string, now: string)
    returns (parts: seq<string>)
    requires was == LegacyPath(name) && now == BackupPath(name) && was != ""
    ensures Tells(parts, was, now, s, Replace(s, name))
  {
    if s == "" {
      parts := [""];
    } else if was <= s {
      var rest := ReplacingJoins(s[|was|..], name, was, now);
      parts := [""] + rest;
      assert s == was + s[|was|..];
      TellsMatch(rest, was, now, s[|was|..], Replace(s[|was|..], name));
    } else {
      var rest := ReplacingJoins(s[1..], name, was, now);
      parts := [[s[0]] + rest[0]] + rest[1..];
      assert s == [s[0]] + s[1..];
      TellsOther(s[0], rest, was, now, s[1..], Replace(s[1..], name));
    }
  }

  /** A replacement puts the new path in the place of every old one, from left to right, and leaves the
      rest of the command as it is. */
  lemma ReplacingKeepsTheRest(s: string, name: string) returns (parts: seq<string>)
    ensures LeftOver(parts, "/root/" + name) && s == Joined(parts, "/root/" + name)
    ensures Replace(s, name) == Joined(parts, BACKUP_DIR + name)
  {
    parts := ReplacingJoins(s, name, LegacyPath(name), BackupPath(name));
  }

  /** A migration is these three replacements, one after the other. */
  lemma MigrationReplacesThree(command: string) returns (a: seq<string>, b: seq<string>, c: seq<string>)
    ensures LeftOver(a, "/root/sshd_config.backup.") && command == Joined(a, "/root/sshd_config.backup.")
    ensures LeftOver(b, "/root/sudoers.backup.")
    ensures Joined(a, BACKUP_DIR + "sshd_config.backup.") == Joined(b, "/root/sudoers.backup.")
    ensures LeftOver(c, "/root/vps-sentry-forensics-")
    ensures Joined(b, BACKUP_DIR + "sudoers.backup.") == Joined(c, "/root/vps-sentry-forensics-")
    ensures Migrate(command) == Joined(c, BACKUP_DIR + "vps-sentry-forensics-")
  {
    a := ReplacingKeepsTheRest(command, SSHD);
    b := ReplacingKeepsTheRest(Replace(command, SSHD), SUDOERS);
    c := ReplacingKeepsTheRest(Replace(Replace(command, SSHD), SUDOERS), FORENSICS);
    LiteralPaths();
  }

  lemma LiteralPaths()
    ensures "/root/" + SSHD == "/root/sshd_config.backup." && "/root/" + SUDOERS == "/root/sudoers.backup."
    ensures "/root/" + FORENSICS == "/root/vps-sentry-forensics-"
  {
  }

  /** What the commands are made to say: the backups are kept in one directory, and it is that directory
      which is created. */
  lemma PathsAsWritten()
    ensures INSTALL_PATH == "/var/lib/vps-sentry/remediation-backups"
    ensures BACKUP_DIR == INSTALL_PATH + "/"
    ensures ENSURE == "install -d -m 700 " + INSTALL_PATH
    ensures SSHD == "sshd_config.backup." && SUDOERS == "sudoers.backup." && FORENSICS == "vps-sentry-forensics-"
  {
  }

  predicate NoLegacy(s: string) {
    !Occurs(LegacyPath(SSHD), s) && !Occurs(LegacyPath(SUDOERS), s) && !Occurs(LegacyPath(FORENSICS), s)
  }

  // ---------------------------------------------------------------- replacing

  /** What keeps a replacement from creating a new match: a file name without slashes whose first
      two letters do not continue "/ro" or "/va". */
  predicate FileName(name: string) {
    && |name| >= 3 && '/' !in name
    && !(name[0] == 'r' && name[1] == 'o') && !(name[0] == 'v' && name[1] == 'a')
    && !IsSpace(name[|name| - 1])
  }

  lemma TheNamesAreFileNames()
    ensures FileName(SSHD) && FileName(SUDOERS) && FileName(FORENSICS)
  {
  }

  /** No slash is followed by these two letters, and none is near the end. */
  predicate SlashesAvoid(s: string, a: char, b: char) {
    forall k | 0 <= k < |s| && s[k] == '/' :: k + 2 < |s| && !(s[k + 1] == a && s[k + 2] == b)
  }

  lemma NoSlashes(s: string)
    requires '/' !in s
    ensures forall k | 0 <= k < |s| :: s[k] != '/'
  {
    forall k | 0 <= k < |s| ensures s[k] != '/' { assert s[k] in s; }
  }

  lemma BackupPathsAvoid(name: string)
    requires FileName(name)
    ensures SlashesAvoid(BackupPath(name), 'r', 'o')
  {
    var s, n := BackupPath(name), |BACKUP_DIR|;
    NoSlashes(name);
    forall k | 0 <= k < |s| && s[k] == '/' ensures k + 2 < |s| && !(s[k + 1] == 'r' && s[k + 2] == 'o') {
      assert k < n;
      assert BACKUP_DIR[k] == '/';
      assert k == 0 || k == 4 || k == 8 || k == 19 || k == 39;
    }
  }

  lemma LegacyTailAvoids(name: string)
    requires FileName(name)
    ensures SlashesAvoid(LegacyPath(name)[1..], 'v', 'a')
  {
    var w := LegacyPath(name)[1..];
    NoSlashes(name);
    assert w == "root/" + name;
    forall k | 0 <= k < |w| && w[k] == '/' ensures k + 2 < |w| && !(w[k + 1] == 'v' && w[k + 2] == 'a') {
      assert k < 5;
    }
  }

  lemma NotABackupPath(w: string, name: string, rest: string)
    requires w != "" && w <= BackupPath(name) + rest
    ensures !SlashesAvoid(w, 'v', 'a')
  {
    var text := BackupPath(name) + rest;
    assert w[0] == text[0] == '/';
    if |w| >= 3 { assert w[1] == text[1] == 'v' && w[2] == text[2] == 'a'; }
  }

  /** A prefix of the result in which no slash is followed by "va" was there before. */
  lemma {:induction false} PrefixWasThere(s: string, name: string, w: string)
    requires FileName(name) && SlashesAvoid(w, 'v', 'a') && w <= Replace(s, name)
    ensures w <= s
  {
    if w != "" {
      if LegacyPath(name) <= s {
        NotABackupPath(w, name, Replace(s[|LegacyPath(name)|..], name));
      } else {
        var rest := Replace(s[1..], name);
        assert Replace(s, name)[1..] == rest;
        assert w[1..] <= rest by { assert w[1..] == Replace(s, name)[..|w|][1..]; }
        forall k | 0 <= k < |w[1..]| && w[1..][k] == '/'
          ensures k + 2 < |w[1..]| && !(w[1..][k + 1] == 'v' && w[1..][k + 2] == 'a')
        {
          assert w[k + 1] == '/';
        }
        PrefixWasThere(s[1..], name, w[1..]);
        assert w == [w[0]] + w[1..] && s == [s[0]] + s[1..];
      }
    }
  }

  lemma OccursLater(pattern: string, s: string, k: nat)
    requires k <= |s| && Occurs(pattern, s[k..])
    ensures Occurs(pattern, s)
  {
    var i :| 0 <= i <= |s[k..]| && pattern <= s[k..][i..];
    assert s[k..][i..] == s[k + i..];
  }

  lemma AvoidsAcross(sub: string, rest: string, k: nat)
    requires SlashesAvoid(sub, 'r', 'o') && k < |sub|
    ensures var t := sub + rest;
            t[k] == '/' ==> k + 2 < |t| && !(t[k + 1] == 'r' && t[k + 2] == 'o')
  {
  }

  /** A legacy path in the result was there before, and is not the one replaced. */
  lemma {:induction false} ReplacingLeavesNoMatch(s: string, name: string, other: string, k: nat)
    requires FileName(name) && FileName(other)
    requires k <= |Replace(s, name)| && LegacyPath(other) <= Replace(s, name)[k..]
    ensures other != name && Occurs(LegacyPath(other), s)
  {
    var q, p, r := LegacyPath(other), LegacyPath(name), Replace(s, name);
    PrefixAt(q, r, k, 0);
    PrefixAt(q, r, k, 1);
    PrefixAt(q, r, k, 2);
    assert r[k] == '/' && r[k + 1] == 'r' && r[k + 2] == 'o';
    if p <= s {
      var sub := BackupPath(name);
      BackupPathsAvoid(name);
      if k < |sub| {
        AvoidsAcross(sub, Replace(s[|p|..], name), k);
      } else {
        DropPast(sub, Replace(s[|p|..], name), k);
        ReplacingLeavesNoMatch(s[|p|..], name, other, k - |sub|);
        OccursLater(q, s, |p|);
      }
    } else if k > 0 {
      assert r[k..] == Replace(s[1..], name)[k - 1..];
      ReplacingLeavesNoMatch(s[1..], name, other, k - 1);
      OccursLater(q, s, 1);
    } else {
      assert r[0..] == r && r[1..] == Replace(s[1..], name);
      assert q[1..] <= r[1..] by { assert q[1..] == r[..|q|][1..]; }
      LegacyTailAvoids(other);
      PrefixWasThere(s[1..], name, q[1..]);
      assert q == [q[0]] + q[1..] && s == [s[0]] + s[1..];
      assert q <= s[0..];
    }
  }

  lemma {:induction false} NothingToReplace(s: string, name: string)
    requires !Occurs(LegacyPath(name), s)
    ensures Replace(s, name) == s
  {
    if s != "" {
      assert s[0..] == s;
      if Occurs(LegacyPath(name), s[1..]) { OccursLater(LegacyPath(name), s, 1); }
      NothingToReplace(s[1..], name);
      assert s == [s[0]] + s[1..];
    }
  }

  lemma StillAbsent(s: string, name: string, other: string)
    requires FileName(name) && FileName(other)
    requires other == name || !Occurs(LegacyPath(other), s)
    ensures !Occurs(LegacyPath(other), Replace(s, name))
  {
    if Occurs(LegacyPath(other), Replace(s, name)) {
      var k :| 0 <= k <= |Replace(s, name)| && LegacyPath(other) <= Replace(s, name)[k..];
      ReplacingLeavesNoMatch(s, name, other, k);
    }
  }

  /** Migration removes every legacy path, and changes nothing once none is left. */
  lemma MigrationIsComplete(command: string)
    ensures NoLegacy(Migrate(command))
    ensures NoLegacy(command) ==> Migrate(command) == command
    ensures Migrate(Migrate(command)) == Migrate(command)
  {
    TheNamesAreFileNames();
    var one := Replace(command, SSHD);
    var two := Replace(one, SUDOERS);
    StillAbsent(command, SSHD, SSHD);
    StillAbsent(one, SUDOERS, SSHD);
    StillAbsent(one, SUDOERS, SUDOERS);
    StillAbsent(two, FORENSICS, SSHD);
    StillAbsent(two, FORENSICS, SUDOERS);
    StillAbsent(two, FORENSICS, FORENSICS);
    NothingLeft(Migrate(command));
    if NoLegacy(command) { NothingLeft(command); }
  }

  lemma NothingLeft(command: string)
    requires NoLegacy(command)
    ensures Migrate(command) == command
  {
    NothingToReplace(command, SSHD);
    NothingToReplace(command, SUDOERS);
    NothingToReplace(command, FORENSICS);
  }

  /** A trimmed, non-empty command stays so. */
  lemma {:induction false} ReplaceKeepsEdges(s: string, name: string)
    requires FileName(name) && s != ""
    ensures Replace(s, name) != ""
    ensures !IsSpace(s[0]) ==> !IsSpace(Replace(s, name)[0])
    ensures !IsSpace(s[|s| - 1]) ==> !IsSpace(Replace(s, name)[|Replace(s, name)| - 1])
  {
    if LegacyPath(name) <= s {
      var rest := s[|LegacyPath(name)|..];
      var sub := BackupPath(name);
      assert sub[0] == '/' && sub[|sub| - 1] == name[|name| - 1];
      if rest != "" { ReplaceKeepsEdges(rest, name); }
    } else if s[1..] != "" {
      ReplaceKeepsEdges(s[1..], name);
    }
  }

  lemma MigrationKeepsEdges(command: string)
    requires command != "" && Trimmed(command)
    ensures Migrate(command) != "" && Trimmed(Migrate(command))
  {
    TheNamesAreFileNames();
    ReplaceKeepsEdges(command, SSHD);
    ReplaceKeepsEdges(Replace(command, SSHD), SUDOERS);
    ReplaceKeepsEdges(Replace(Replace(command, SSHD), SUDOERS), FORENSICS);
  }

  // ---------------------------------------------------------------- the backup directory

  predicate SomeMentions(commands: seq<string>, text: string) {
    exists i | 0 <= i < |commands| :: Occurs(text, commands[i])
  }

  /** ensureBackupDirCommand */
  function EnsureBackupDir(commands: seq<string>): seq<string> {
    if !SomeMentions(commands, BACKUP_DIR) then commands
    else if SomeMentions(commands, ENSURE) then commands
    else ["sudo " + ENSURE] + commands
  }

  /** The backup directory is created whenever a command uses it, by one command at most. */
  lemma BackupDirIsEnsured(commands: seq<string>)
    ensures var r := EnsureBackupDir(commands);
            && (SomeMentions(r, BACKUP_DIR) ==> SomeMentions(r, ENSURE))
            && EnsureBackupDir(r) == r
            && (r == commands || r == ["sudo " + ENSURE] + commands)
            && (r != commands ==> SomeMentions(commands, BACKUP_DIR))
  {
    var r := EnsureBackupDir(commands);
    if r != commands {
      assert r[0][5..] == ENSURE;
      assert Occurs(ENSURE, r[0]);
    }
  }

  lemma InstallPathAvoids(k: nat)
    requires k < |INSTALL_PATH| && INSTALL_PATH[k] == '/'
    ensures k + 2 < |INSTALL_PATH| && INSTALL_PATH[k + 2] != 'o'
  {
    assert k == 0 || k == 4 || k == 8 || k == 19;
  }

  lemma EnsureAvoids(k: nat)
    requires k < |"sudo " + ENSURE| && ("sudo " + ENSURE)[k] == '/'
    ensures k + 2 < |"sudo " + ENSURE| && ("sudo " + ENSURE)[k + 2] != 'o'
  {
    var s := "sudo " + INSTALL;
    assert s + INSTALL_PATH == "sudo " + ENSURE;
    NoSlashes(s);
    assert k >= |s|;
    InstallPathAvoids(k - |s|);
  }

  lemma EnsureHasNoRoot()
    ensures !Occurs("/root/", "sudo " + ENSURE)
  {
    var text := "sudo " + ENSURE;
    forall k | 0 <= k <= |text| ensures !("/root/" <= text[k..]) {
      if "/root/" <= text[k..] {
        PrefixAt("/root/", text, k, 0);
        PrefixAt("/root/", text, k, 2);
        EnsureAvoids(k);
      }
    }
  }

  lemma EnsureIsClean()
    ensures NoLegacy("sudo " + ENSURE) && Trimmed("sudo " + ENSURE)
  {
    var s := "sudo " + ENSURE;
    assert s[0] == 's' && s[|s| - 1] == INSTALL_PATH[|INSTALL_PATH| - 1] == 's';
    EnsureHasNoRoot();
    LegacyIsUnderRoot(s, SSHD);
    LegacyIsUnderRoot(s, SUDOERS);
    LegacyIsUnderRoot(s, FORENSICS);
  }

  lemma LegacyIsUnderRoot(s: string, name: string)
    ensures Occurs(LegacyPath(name), s) ==> Occurs("/root/", s)
  {
    forall k | 0 <= k <= |s| && LegacyPath(name) <= s[k..] ensures "/root/" <= s[k..] {
      assert LegacyPath(name)[..6] == "/root/";
      assert s[k..][..6] == "/root/";
    }
  }
}
