/** Reading and writing the payload of an execute run (src/lib/remediate/queue-runtime.ts): the
    normal form that reading produces, and when reading back the stored text is the identity. Date
    and number parsing are parameters. */
module PayloadJson {
  import opened Common
  import opened QueueRuntime
  import opened JsonText
  import opened JsonReading
  import opened LegacyPaths

  datatype Reader = Reader(
    parseDate: string -> Option<int>,
    printDate: int -> string,
    parseNumber: string -> Option<int>)

  /** The instants a Date can hold. */
  predicate DateRange(ms: int) { -8_640_000_000_000_000 <= ms <= 8_640_000_000_000_000 }

  /** ISO text of an instant parses back to it. */
  ghost predicate FaithfulDates(r: Reader) {
    && (forall ms | DateRange(ms) ::
          Trimmed(r.printDate(ms)) && r.printDate(ms) != "" && r.parseDate(r.printDate(ms)) == Some(ms))
    && (forall t :: r.parseDate(t).Some? ==> DateRange(r.parseDate(t).value))
  }

  // ---------------------------------------------------------------- reading single values

  /** Property access: the last of duplicate members wins. */
  function Get(members: Members, key: string): Option<Json> {
    match members
    case NoMember => None
    case Member(k, v, rest) =>
      var later := Get(rest, key);
      if later.Some? then later else if k == key then Some(v) else None
  }

  function Listed(members: Members): seq<(string, Json)> {
    match members
    case NoMember => []
    case Member(k, v, rest) => [(k, v)] + Listed(rest)
  }

  /** Among members with the same key the last one counts. */
  lemma {:induction false} LastMemberCounts(members: Members, key: string)
    ensures Get(members, key).None? <==> forall m | m in Listed(members) :: m.0 != key
    ensures Get(members, key).Some? ==>
              exists i | 0 <= i < |Listed(members)| ::
                && Listed(members)[i] == (key, Get(members, key).value)
                && forall j | i < j < |Listed(members)| :: Listed(members)[j].0 != key
  {
    match members
    case NoMember =>
    case Member(k, v, rest) =>
      LastMemberCounts(rest, key);
      var all, later := Listed(members), Listed(rest);
      if Get(rest, key).Some? {
        var i :| 0 <= i < |later| && later[i] == (key, Get(rest, key).value)
                 && forall j | i < j < |later| :: later[j].0 != key;
        assert all[i + 1] == later[i];
        forall j | i + 1 < j < |all| ensures all[j].0 != key { assert all[j] == later[j - 1]; }
      } else {
        forall j | 0 < j < |all| ensures all[j].0 != key { assert all[j] == later[j - 1]; }
        if k == key { assert all[0] == (key, v); }
      }
  }

  /** asRecord, with nothing in place of a value that is not an object */
  function RecordOf(v: Option<Json>): Members {
    if v.Some? && v.value.Obj? then v.value.members else NoMember
  }

  /** Lower-casing, exact for comparison with the words below. */
  function Lower(s: string): string {
    if s == "" then ""
    else [if 'A' <= s[0] <= 'Z' then (s[0] as int + 32) as char else s[0]] + Lower(s[1..])
  }

  /** toInt */
  function ToInt(r: Reader, v: Option<Json>): Option<int> {
    match v
    case Some(Num(n)) => Some(n)
    case Some(Str(s)) => if Trim(s) == "" then None else r.parseNumber(Trim(s))
    case _ => None
  }

  /** toBoolOrNull */
  function ToBoolOrNull(v: Option<Json>): Option<bool> {
    match v
    case Some(Bool(b)) => Some(b)
    case Some(Str(s)) =>
      var t := Lower(Trim(s));
      if t == "1" || t == "true" || t == "yes" || t == "on" then Some(true)
      else if t == "0" || t == "false" || t == "no" || t == "off" then Some(false)
      else None
    case _ => None
  }

  /** toBool */
  function ToBool(v: Option<Json>, fallback: bool): bool { ToBoolOrNull(v).GetOr(fallback) }

  /** toIsoMaybe, as the instant it denotes */
  function ToDate(r: Reader, v: Option<Json>): Option<int> {
    match v
    case Some(Str(s)) => if Trim(s) == "" then None else r.parseDate(Trim(s))
    case _ => None
  }

  /** toTextOrNull */
  function ToText(v: Option<Json>, maxLen: nat): Option<string> {
    match v
    case Some(Str(s)) => if Trim(s) == "" then None else Some(Truncate(s, maxLen))
    case _ => None
  }

  function ItemStrings(items: Items): (r: seq<string>)
    ensures forall s | s in r :: s != "" && Trimmed(s)
  {
    match items
    case NoItem => []
    case Item(head, tail) =>
      (if head.Str? && Trim(head.s) != "" then [Trim(head.s)] else []) + ItemStrings(tail)
  }

  /** toStringArray */
  function ToStrings(v: Option<Json>): (r: seq<string>)
    ensures forall s | s in r :: s != "" && Trimmed(s)
  {
    if v.Some? && v.value.Arr? then ItemStrings(v.value.items) else []
  }

  function MigrateAll(commands: seq<string>): (r: seq<string>)
    ensures |r| == |commands|
    ensures forall i | 0 <= i < |commands| :: r[i] == Migrate(commands[i])
  {
    if commands == [] then [] else [Migrate(commands[0])] + MigrateAll(commands[1..])
  }

  function Take20(xs: seq<string>): seq<string> { xs[..Min(20, |xs|)] }

  // ---------------------------------------------------------------- reading a payload

  function StatusOf(required: bool, v: Option<Json>): ApprovalStatus {
    var text := if v.Some? && v.value.Str? then Lower(Trim(v.value.s)) else "";
    if !required then NoApproval
    else if text == "approved" then Approved
    else if text == "rejected" then Rejected
    else Pending
  }

  function ReadApproval(r: Reader, a: Members): ApprovalMeta {
    var required := ToBool(Get(a, "required"), false);
    ApprovalMeta(required, StatusOf(required, Get(a, "status")), ToText(Get(a, "reason"), 280),
      ToDate(r, Get(a, "requestedAt")), ToText(Get(a, "requestedByUserId"), 120),
      ToDate(r, Get(a, "approvedAt")), ToText(Get(a, "approvedByUserId"), 120))
  }

  function ReadCanary(r: Reader, c: Members): CanaryMeta {
    var enabled := ToBool(Get(c, "enabled"), false);
    CanaryMeta(enabled,
      ClampInt(ToInt(r, Get(c, "rolloutPercent")).GetOr(100), 1, 100),
      ClampInt(ToInt(r, Get(c, "bucket")).GetOr(0), 0, 99),
      if enabled then ToBool(Get(c, "selected"), true) else true,
      Take20(ToStrings(Get(c, "checks"))),
      ToDate(r, Get(c, "lastCheckedAt")), ToBoolOrNull(Get(c, "passed")), ToText(Get(c, "error"), 1000))
  }

  function ReadRollback(r: Reader, b: Members): RollbackMeta {
    RollbackMeta(
      ToBool(Get(b, "enabled"), false), ToBool(Get(b, "attempted"), false), ToBoolOrNull(Get(b, "succeeded")),
      Take20(MigrateAll(ToStrings(Get(b, "commands")))), ToDate(r, Get(b, "lastRunAt")), ToText(Get(b, "error"), 1000))
  }

  /** The members that reading the queue metadata looks up. */
  datatype RawQueue = RawQueue(
    attempts: Option<Json>, maxAttempts: Option<Json>, nextAttemptAt: Option<Json>, lastAttemptAt: Option<Json>,
    lastError: Option<Json>, dlq: Option<Json>, dlqReason: Option<Json>, replayOfRunId: Option<Json>,
    approval: Option<Json>, canary: Option<Json>, rollback: Option<Json>,
    autoQueued: Option<Json>, autoReason: Option<Json>, autoTier: Option<Json>)

  function RawQueueOf(rec: Members): RawQueue {
    RawQueue(
      Get(rec, "attempts"), Get(rec, "maxAttempts"), Get(rec, "nextAttemptAt"), Get(rec, "lastAttemptAt"),
      Get(rec, "lastError"), Get(rec, "dlq"), Get(rec, "dlqReason"), Get(rec, "replayOfRunId"),
      Get(rec, "approval"), Get(rec, "canary"), Get(rec, "rollback"),
      Get(rec, "autoQueued"), Get(rec, "autoReason"), Get(rec, "autoTier"))
  }

  function NormalizeQueue(r: Reader, raw: RawQueue, defaultMaxAttempts: int): QueueMeta {
    var dlq := ToBool(raw.dlq, false);
    var approval := ReadApproval(r, RecordOf(raw.approval));
    QueueMeta(
      ClampInt(ToInt(r, raw.attempts).GetOr(0), 0, 20_000),
      ClampInt(ToInt(r, raw.maxAttempts).GetOr(ClampInt(defaultMaxAttempts, 1, 20)), 1, 20),
      if dlq || (approval.required && approval.status != Approved) then None else ToDate(r, raw.nextAttemptAt),
      ToDate(r, raw.lastAttemptAt),
      ToText(raw.lastError, 1200),
      dlq,
      ToText(raw.dlqReason, 600),
      ToText(raw.replayOfRunId, 120),
      approval,
      ReadCanary(r, RecordOf(raw.canary)),
      ReadRollback(r, RecordOf(raw.rollback)),
      ToBool(raw.autoQueued, false),
      ToText(raw.autoReason, 400),
      ToText(raw.autoTier, 40))
  }

  /** normalizeQueueRuntimeMeta */
  function ReadQueue(r: Reader, raw: Option<Json>, defaultMaxAttempts: int): QueueMeta {
    NormalizeQueue(r, RawQueueOf(RecordOf(raw)), defaultMaxAttempts)
  }

  function TrimmedText(v: Option<Json>): string {
    if v.Some? && v.value.Str? then Trim(v.value.s) else ""
  }

  /** The members that reading a payload looks up. */
  datatype RawPayload = RawPayload(
    mode: Option<Json>, actionId: Option<Json>, profile: Option<Json>, sourceCodes: Option<Json>,
    commands: Option<Json>, rollbackNotes: Option<Json>, queue: Option<Json>)

  function RawPayloadOf(rec: Members): RawPayload {
    RawPayload(Get(rec, "mode"), Get(rec, "actionId"), Get(rec, "profile"), Get(rec, "sourceCodes"),
               Get(rec, "commands"), Get(rec, "rollbackNotes"), Get(rec, "queue"))
  }

  function NormalizePayload(r: Reader, raw: RawPayload, defaultMaxAttempts: int): Option<Payload> {
    var actionId := TrimmedText(raw.actionId);
    var commands := EnsureBackupDir(MigrateAll(ToStrings(raw.commands)));
    var profile := TrimmedText(raw.profile);
    if raw.mode != Some(Str("execute")) || actionId == "" || commands == [] then None
    else Some(Payload(actionId, commands, ToStrings(raw.sourceCodes), ToStrings(raw.rollbackNotes),
                      if profile == "" then None else Some(profile),
                      ReadQueue(r, raw.queue, defaultMaxAttempts)))
  }

  /** parseExecuteRunPayload, from the parsed JSON on */
  function ReadPayload(r: Reader, raw: Json, defaultMaxAttempts: int): Option<Payload> {
    NormalizePayload(r, RawPayloadOf(RecordOf(Some(raw))), defaultMaxAttempts)
  }

  // ---------------------------------------------------------------- the normal form

  ghost predicate CleanStrings(xs: seq<string>) {
    forall x | x in xs :: x != "" && Trimmed(x)
  }

  ghost predicate CleanCommands(xs: seq<string>) {
    CleanStrings(xs) && forall x | x in xs :: NoLegacy(x)
  }

  predicate TextOk(t: Option<string>) { t.Some? ==> t.value != "" && Trimmed(t.value) }

  predicate DateOk(d: Option<int>) { d.Some? ==> DateRange(d.value) }

  predicate ApprovalNormal(a: ApprovalMeta) {
    && (a.status == NoApproval <==> !a.required)
    && TextOk(a.reason) && TextOk(a.requestedByUserId) && TextOk(a.approvedByUserId)
    && DateOk(a.requestedAt) && DateOk(a.approvedAt)
  }

  ghost predicate CanaryNormal(c: CanaryMeta) {
    && 1 <= c.rolloutPercent <= 100 && 0 <= c.bucket <= 99 && (!c.enabled ==> c.selected)
    && CleanStrings(c.checks) && |c.checks| <= 20 && TextOk(c.error) && DateOk(c.lastCheckedAt)
  }

  ghost predicate RollbackNormal(b: RollbackMeta) {
    CleanCommands(b.commands) && |b.commands| <= 20 && TextOk(b.error) && DateOk(b.lastRunAt)
  }

  ghost predicate QueueNormal(q: QueueMeta) {
    && 0 <= q.attempts <= 20_000 && 1 <= q.maxAttempts <= 20
    && (q.dlq || AwaitsApproval(q) ==> q.nextAttemptAt == None)
    && TextOk(q.lastError) && TextOk(q.dlqReason) && TextOk(q.replayOfRunId)
    && TextOk(q.autoReason) && TextOk(q.autoTier)
    && DateOk(q.nextAttemptAt) && DateOk(q.lastAttemptAt)
    && ApprovalNormal(q.approval) && CanaryNormal(q.canary) && RollbackNormal(q.rollback)
  }

  ghost predicate Normal(p: Payload) {
    && p.actionId != "" && Trimmed(p.actionId)
    && p.commands != [] && CleanCommands(p.commands)
    && (SomeMentions(p.commands, BACKUP_DIR) ==> SomeMentions(p.commands, ENSURE))
    && CleanStrings(p.sourceCodes) && CleanStrings(p.rollbackNotes)
    && TextOk(p.profile)
    && QueueNormal(p.queue)
  }

  lemma TruncateIsText(s: string, maxLen: nat)
    requires Trim(s) != "" && maxLen > 0
    ensures Truncate(s, maxLen) != "" && Trimmed(Truncate(s, maxLen))
  {
    var m := Trim(s);
    if |m| > maxLen {
      var tail := "...[truncated " + Decimal(|m| - maxLen) + " chars]";
      assert tail[|tail| - 1] == ']';
      assert Truncate(s, maxLen) == m[..maxLen] + tail;
    }
  }

  lemma ReadTextIsOk(v: Option<Json>, maxLen: nat)
    requires maxLen > 0
    ensures TextOk(ToText(v, maxLen))
  {
    if v.Some? && v.value.Str? && Trim(v.value.s) != "" { TruncateIsText(v.value.s, maxLen); }
  }

  lemma MigratedAreClean(commands: seq<string>)
    requires CleanStrings(commands)
    ensures CleanCommands(MigrateAll(commands))
  {
    var r := MigrateAll(commands);
    forall x | x in r ensures x != "" && Trimmed(x) && NoLegacy(x) {
      var i :| 0 <= i < |r| && r[i] == x;
      assert commands[i] in commands;
      MigrationKeepsEdges(commands[i]);
      MigrationIsComplete(commands[i]);
    }
  }

  lemma TakeIsClean(xs: seq<string>)
    ensures |Take20(xs)| <= 20 && forall x | x in Take20(xs) :: x in xs
  {
  }

  lemma ReadApprovalIsNormal(r: Reader, a: Members)
    requires FaithfulDates(r)
    ensures ApprovalNormal(ReadApproval(r, a))
  {
    ReadTextIsOk(Get(a, "reason"), 280);
    ReadTextIsOk(Get(a, "requestedByUserId"), 120);
    ReadTextIsOk(Get(a, "approvedByUserId"), 120);
  }

  lemma ReadCanaryIsNormal(r: Reader, c: Members)
    requires FaithfulDates(r)
    ensures CanaryNormal(ReadCanary(r, c))
  {
    ReadTextIsOk(Get(c, "error"), 1000);
    TakeIsClean(ToStrings(Get(c, "checks")));
  }

  lemma ReadRollbackIsNormal(r: Reader, b: Members)
    requires FaithfulDates(r)
    ensures RollbackNormal(ReadRollback(r, b))
  {
    ReadTextIsOk(Get(b, "error"), 1000);
    MigratedAreClean(ToStrings(Get(b, "commands")));
    TakeIsClean(MigrateAll(ToStrings(Get(b, "commands"))));
  }

  lemma ReadQueueIsNormal(r: Reader, raw: RawQueue, defaultMaxAttempts: int)
    requires FaithfulDates(r)
    ensures QueueNormal(NormalizeQueue(r, raw, defaultMaxAttempts))
  {
    ReadTextIsOk(raw.lastError, 1200);
    ReadTextIsOk(raw.dlqReason, 600);
    ReadTextIsOk(raw.replayOfRunId, 120);
    ReadTextIsOk(raw.autoReason, 400);
    ReadTextIsOk(raw.autoTier, 40);
    ReadApprovalIsNormal(r, RecordOf(raw.approval));
    ReadCanaryIsNormal(r, RecordOf(raw.canary));
    ReadRollbackIsNormal(r, RecordOf(raw.rollback));
  }

  lemma CommandsAreClean(given: seq<string>)
    requires CleanStrings(given)
    ensures var commands := EnsureBackupDir(MigrateAll(given));
            CleanCommands(commands) && (SomeMentions(commands, BACKUP_DIR) ==> SomeMentions(commands, ENSURE))
  {
    MigratedAreClean(given);
    BackupDirIsEnsured(MigrateAll(given));
    EnsureIsClean();
  }

  /** Whatever is stored, what is read is in normal form: no due time while dead-lettered or waiting
      for approval, an approval status exactly when approval is required, no legacy path, and the
      backup directory created when it is used. */
  lemma ReadingNormalizes(r: Reader, raw: Json, defaultMaxAttempts: int)
    requires FaithfulDates(r)
    ensures var p := ReadPayload(r, raw, defaultMaxAttempts); p.Some? ==> Normal(p.value)
  {
    var found := RawPayloadOf(RecordOf(Some(raw)));
    CommandsAreClean(ToStrings(found.commands));
    ReadQueueIsNormal(r, RawQueueOf(RecordOf(found.queue)), defaultMaxAttempts);
  }

  // ---------------------------------------------------------------- what reading makes of other JSON

  /** A payload cannot be read exactly when it is no object with the mode of an execute run, has no
      action, or has no command that is not blank. */
  lemma UnreadableExactlyWhen(r: Reader, raw: Json, defaultMaxAttempts: int)
    ensures ReadPayload(r, raw, defaultMaxAttempts).Some? <==>
              && raw.Obj? && Get(raw.members, "mode") == Some(Str("execute"))
              && IsFilledText(Get(raw.members, "actionId")) && HasFilledText(Get(raw.members, "commands"))
  {
    if raw.Obj? {
      var commands := Get(raw.members, "commands");
      if IsFilledText(Get(raw.members, "actionId")) { FilledIsKept(Get(raw.members, "actionId").value.s); }
      if TrimmedText(Get(raw.members, "actionId")) != "" { FilledIsKept(Get(raw.members, "actionId").value.s); }
      if commands.Some? && commands.value.Arr? { FilledItemsAreRead(commands.value.items); }
    }
  }

  predicate IsFilledText(v: Option<Json>) { v.Some? && v.value.Str? && Filled(v.value.s) }

  predicate FilledItems(items: Items) {
    items.Item? && (IsFilledText(Some(items.head)) || FilledItems(items.tail))
  }

  predicate HasFilledText(v: Option<Json>) { v.Some? && v.value.Arr? && FilledItems(v.value.items) }

  lemma {:induction false} FilledItemsAreRead(items: Items)
    ensures ItemStrings(items) != [] <==> FilledItems(items)
  {
    if items.Item? {
      FilledItemsAreRead(items.tail);
      if items.head.Str? { FilledIsKept(items.head.s); }
    }
  }

  /** Where there is no queue metadata, the run starts fresh and needs nothing. */
  lemma NothingReadsAsDefaults(r: Reader, raw: Option<Json>, defaultMaxAttempts: int)
    requires raw.None? || !raw.value.Obj? || raw.value.members == NoMember
    ensures ReadQueue(r, raw, defaultMaxAttempts) ==
              QueueMeta(0, Max(1, Min(defaultMaxAttempts, 20)), None, None, None, false, None, None,
                        ApprovalMeta(false, NoApproval, None, None, None, None, None),
                        CanaryMeta(false, 100, 0, true, [], None, None, None),
                        RollbackMeta(false, false, None, [], None, None),
                        false, None, None)
  {
  }

  lemma {:induction false} LowerIsPointwise(s: string)
    ensures |Lower(s)| == |s|
    ensures forall i | 0 <= i < |s| ::
              if 'A' <= s[i] <= 'Z' then Lower(s)[i] as int - 'a' as int == s[i] as int - 'A' as int
              else Lower(s)[i] == s[i]
  {
    if s != "" { LowerIsPointwise(s[1..]); }
  }

  /** Flags are read from booleans and, whatever their case and the white space around them, from eight
      words; a status other than two words is pending, if an approval is required at all. */
  lemma WordsAreRead(s: string, required: bool, fallback: bool)
    ensures var word := Lower(Trim(s));
            && ToBoolOrNull(Some(Str(s))) == (if word in {"1", "true", "yes", "on"} then Some(true)
                                              else if word in {"0", "false", "no", "off"} then Some(false) else None)
            && StatusOf(required, Some(Str(s))) == (if !required then NoApproval
                                                    else if word == "approved" then Approved
                                                    else if word == "rejected" then Rejected else Pending)
            && ToBool(None, fallback) == fallback && ToBool(Some(Null), fallback) == fallback
            && ToBool(Some(Bool(required)), fallback) == required
            && StatusOf(required, None) == (if required then Pending else NoApproval)
  {
  }

  /** A number, or a text that is one up to the white space around it. */
  predicate Numeral(r: Reader, v: Option<Json>, n: int) {
    v == Some(Num(n))
    || (v.Some? && v.value.Str? && Filled(v.value.s) && r.parseNumber(Trim(v.value.s)) == Some(n))
  }

  /** Numbers, also written as texts, are read as they are, or as the nearest number within the range. */
  lemma NumbersAreReadWithin(r: Reader, q: RawQueue, c: Members, n: int, defaultMaxAttempts: int)
    ensures Numeral(r, q.attempts, n) ==>
              NormalizeQueue(r, q, defaultMaxAttempts).attempts == Max(0, Min(n, 20_000))
    ensures Numeral(r, q.maxAttempts, n) ==>
              NormalizeQueue(r, q, defaultMaxAttempts).maxAttempts == Max(1, Min(n, 20))
    ensures Numeral(r, Get(c, "rolloutPercent"), n) ==> ReadCanary(r, c).rolloutPercent == Max(1, Min(n, 100))
    ensures Numeral(r, Get(c, "bucket"), n) ==> ReadCanary(r, c).bucket == Max(0, Min(n, 99))
  {
    NumeralIsRead(r, q.attempts, n);
    NumeralIsRead(r, q.maxAttempts, n);
    NumeralIsRead(r, Get(c, "rolloutPercent"), n);
    NumeralIsRead(r, Get(c, "bucket"), n);
  }

  lemma NumeralIsRead(r: Reader, v: Option<Json>, n: int)
    ensures Numeral(r, v, n) ==> ToInt(r, v) == Some(n)
  {
    if v.Some? && v.value.Str? { FilledIsKept(v.value.s); }
  }

  // ---------------------------------------------------------------- writing a payload

  /** One member of an object that is written out; objects are tables of these. */
  datatype Field = Field(key: string, value: Json)

  function MembersOf(fields: seq<Field>): Members {
    if fields == [] then NoMember else Member(fields[0].key, fields[0].value, MembersOf(fields[1..]))
  }

  function Record(fields: seq<Field>): Json { Obj(MembersOf(fields)) }

  function ItemsOf(xs: seq<string>): Items {
    if xs == [] then NoItem else Item(Str(xs[0]), ItemsOf(xs[1..]))
  }

  function Strings(xs: seq<string>): Json { Arr(ItemsOf(xs)) }

  function TextJson(t: Option<string>): Json { if t.Some? then Str(t.value) else Null }

  function DateJson(r: Reader, d: Option<int>): Json { if d.Some? then Str(r.printDate(d.value)) else Null }

  function BoolJson(b: Option<bool>): Json { if b.Some? then Bool(b.value) else Null }

  function StatusText(s: ApprovalStatus): string {
    match s case NoApproval => "none" case Pending => "pending" case Approved => "approved" case Rejected => "rejected"
  }

  function ApprovalFields(r: Reader, a: ApprovalMeta): seq<Field> {
    [Field("required", Bool(a.required)),
     Field("status", Str(StatusText(a.status))),
     Field("reason", TextJson(a.reason)),
     Field("requestedAt", DateJson(r, a.requestedAt)),
     Field("requestedByUserId", TextJson(a.requestedByUserId)),
     Field("approvedAt", DateJson(r, a.approvedAt)),
     Field("approvedByUserId", TextJson(a.approvedByUserId))]
  }

  function CanaryFields(r: Reader, c: CanaryMeta): seq<Field> {
    [Field("enabled", Bool(c.enabled)),
     Field("rolloutPercent", Num(c.rolloutPercent)),
     Field("bucket", Num(c.bucket)),
     Field("selected", Bool(c.selected)),
     Field("checks", Strings(c.checks)),
     Field("lastCheckedAt", DateJson(r, c.lastCheckedAt)),
     Field("passed", BoolJson(c.passed)),
     Field("error", TextJson(c.error))]
  }

  function RollbackFields(r: Reader, b: RollbackMeta): seq<Field> {
    [Field("enabled", Bool(b.enabled)),
     Field("attempted", Bool(b.attempted)),
     Field("succeeded", BoolJson(b.succeeded)),
     Field("commands", Strings(b.commands)),
     Field("lastRunAt", DateJson(r, b.lastRunAt)),
     Field("error", TextJson(b.error))]
  }

  function CounterFields(r: Reader, q: QueueMeta): seq<Field> {
    [Field("version", Num(1)),
     Field("attempts", Num(q.attempts)),
     Field("maxAttempts", Num(q.maxAttempts)),
     Field("nextAttemptAt", DateJson(r, q.nextAttemptAt)),
     Field("lastAttemptAt", DateJson(r, q.lastAttemptAt))]
  }

  function ErrorFields(q: QueueMeta): seq<Field> {
    [Field("lastError", TextJson(q.lastError)),
     Field("dlq", Bool(q.dlq)),
     Field("dlqReason", TextJson(q.dlqReason)),
     Field("replayOfRunId", TextJson(q.replayOfRunId))]
  }

  function PartFields(r: Reader, q: QueueMeta): seq<Field> {
    [Field("approval", Record(ApprovalFields(r, q.approval))),
     Field("canary", Record(CanaryFields(r, q.canary))),
     Field("rollback", Record(RollbackFields(r, q.rollback)))]
  }

  function AutoFields(q: QueueMeta): seq<Field> {
    [Field("autoQueued", Bool(q.autoQueued)),
     Field("autoReason", TextJson(q.autoReason)),
     Field("autoTier", TextJson(q.autoTier))]
  }

  function QueueFields(r: Reader, q: QueueMeta): seq<Field> {
    CounterFields(r, q) + ErrorFields(q) + PartFields(r, q) + AutoFields(q)
  }

  /** What every stored run begins with; an absent profile leaves no member. */
  function HeadFields(mode: string, actionId: string, profile: Option<string>, sourceCodes: seq<string>,
                      commands: seq<string>, rollbackNotes: seq<string>): seq<Field> {
    [Field("mode", Str(mode)), Field("actionId", Str(actionId))]
    + (if profile.Some? then [Field("profile", Str(profile.value))] else [])
    + [Field("sourceCodes", Strings(sourceCodes)),
       Field("commands", Strings(commands)),
       Field("rollbackNotes", Strings(rollbackNotes))]
  }

  /** The object that serializeExecuteRunPayload prints. */
  function PayloadFields(r: Reader, p: Payload): seq<Field> {
    HeadFields("execute", p.actionId, p.profile, p.sourceCodes, p.commands, p.rollbackNotes)
    + [Field("queue", Record(QueueFields(r, p.queue)))]
  }

  function ToJson(r: Reader, p: Payload): Json { Record(PayloadFields(r, p)) }

  /** serializeExecuteRunPayload */
  function Serialize(r: Reader, p: Payload): string { Print(ToJson(r, p)) }

  // ---------------------------------------------------------------- texts at their limits

  /** The texts that truncation leaves alone: the short ones, and those of exactly this shape. */
  predicate Stable(t: string, maxLen: nat) {
    |t| <= maxLen || (|t| == maxLen + 23 && t[maxLen..] == "...[truncated 23 chars]")
  }

  lemma {:induction false} DigitsAreFew(n: nat)
    ensures 10 <= n < 100 ==> |Decimal(n)| == 2
    ensures |Decimal(n)| <= n / 10 + 1
  {
    if n >= 10 { DigitsAreFew(n / 10); }
  }

  lemma SameTail(x: string, y: string, z: string)
    ensures x + y == x + z <==> y == z
  {
    assert (x + y)[|x|..] == y && (x + z)[|x|..] == z;
  }

  function Note(n: nat): string { "...[truncated " + Decimal(n) + " chars]" }

  lemma NoteCountsItself(n: nat)
    ensures |Note(n)| == n <==> n == 23
  {
    DigitsAreFew(n);
    assert |Note(n)| == 21 + |Decimal(n)|;
  }

  /** Truncating again changes a trimmed text unless it is short or its note already counts itself. */
  lemma TruncateFixes(t: string, maxLen: nat)
    requires Trimmed(t)
    ensures Truncate(t, maxLen) == t <==> Stable(t, maxLen)
  {
    var m := Trim(t);
    assert m == t;
    if |t| > maxLen {
      var n := |t| - maxLen;
      assert Truncate(t, maxLen) == m[..maxLen] + Note(n);
      assert t == t[..maxLen] + t[maxLen..] && |t[maxLen..]| == n;
      SameTail(t[..maxLen], t[maxLen..], Note(n));
      NoteCountsItself(n);
      NoteOfTwentyThree();
    }
  }

  lemma NoteOfTwentyThree()
    ensures Note(23) == "...[truncated 23 chars]"
  {
    assert Decimal(23) == "23";
  }

  predicate TextStable(t: Option<string>, maxLen: nat) { t.Some? ==> Stable(t.value, maxLen) }

  lemma TextReads(t: Option<string>, maxLen: nat)
    requires TextOk(t)
    ensures ToText(Some(TextJson(t)), maxLen) == t <==> TextStable(t, maxLen)
  {
    if t.Some? { TruncateFixes(t.value, maxLen); }
  }

  // ---------------------------------------------------------------- reading back what was written

  ghost predicate DistinctFields(fields: seq<Field>) {
    forall i, j | 0 <= i < j < |fields| :: fields[i].key != fields[j].key
  }

  lemma {:induction false} GetOther(fields: seq<Field>, key: string)
    requires forall i | 0 <= i < |fields| :: fields[i].key != key
    ensures Get(MembersOf(fields), key) == None
  {
    if fields != [] {
      assert forall i | 0 <= i < |fields[1..]| :: fields[1..][i] == fields[i + 1];
      GetOther(fields[1..], key);
    }
  }

  lemma {:induction false} GetField(fields: seq<Field>, i: nat)
    requires DistinctFields(fields) && i < |fields|
    ensures Get(MembersOf(fields), fields[i].key) == Some(fields[i].value)
  {
    var rest := fields[1..];
    assert forall j | 0 <= j < |rest| :: rest[j] == fields[j + 1];
    if i > 0 { GetField(rest, i - 1); } else { GetOther(rest, fields[0].key); }
  }

  /** Looking up the key of any row of the table gives its value. */
  ghost predicate Shows(m: Members, fields: seq<Field>) {
    forall i | 0 <= i < |fields| :: Get(m, fields[i].key) == Some(fields[i].value)
  }

  lemma TableShows(fields: seq<Field>)
    requires DistinctFields(fields)
    ensures Shows(MembersOf(fields), fields)
  {
    forall i: nat | i < |fields| ensures Get(MembersOf(fields), fields[i].key) == Some(fields[i].value) {
      GetField(fields, i);
    }
  }

  lemma {:induction false} StringsRead(xs: seq<string>)
    requires CleanStrings(xs)
    ensures ToStrings(Some(Strings(xs))) == xs
  {
    if xs != [] {
      assert xs[0] in xs;
      StringsRead(xs[1..]);
    }
  }

  lemma {:induction false} CleanStay(xs: seq<string>)
    requires CleanCommands(xs)
    ensures MigrateAll(xs) == xs
  {
    if xs != [] {
      assert xs[0] in xs;
      NothingLeft(xs[0]);
      CleanStay(xs[1..]);
    }
  }

  lemma {:induction false} LowerStays(s: string)
    requires forall i | 0 <= i < |s| :: !('A' <= s[i] <= 'Z')
    ensures Lower(s) == s
  {
    if s != "" { LowerStays(s[1..]); }
  }

  lemma StatusReads(s: ApprovalStatus, required: bool)
    requires s == NoApproval <==> !required
    ensures StatusOf(required, Some(Str(StatusText(s)))) == s
  {
    match s
    case NoApproval =>
    case Pending => WordReads("pending");
    case Approved => WordReads("approved");
    case Rejected => WordReads("rejected");
  }

  lemma WordReads(t: string)
    requires forall i | 0 <= i < |t| :: 'a' <= t[i] <= 'z'
    ensures Lower(Trim(t)) == t
  {
    LowerStays(t);
  }

  predicate ApprovalStable(a: ApprovalMeta) {
    TextStable(a.reason, 280) && TextStable(a.requestedByUserId, 120) && TextStable(a.approvedByUserId, 120)
  }

  lemma DateReads(r: Reader, d: Option<int>)
    requires FaithfulDates(r) && DateOk(d)
    ensures ToDate(r, Some(DateJson(r, d))) == d
  {
  }

  lemma GetApproval(r: Reader, a: ApprovalMeta)
    ensures var m := MembersOf(ApprovalFields(r, a));
            && Get(m, "required") == Some(Bool(a.required)) && Get(m, "status") == Some(Str(StatusText(a.status)))
            && Get(m, "reason") == Some(TextJson(a.reason)) && Get(m, "requestedAt") == Some(DateJson(r, a.requestedAt))
            && Get(m, "requestedByUserId") == Some(TextJson(a.requestedByUserId))
            && Get(m, "approvedAt") == Some(DateJson(r, a.approvedAt))
            && Get(m, "approvedByUserId") == Some(TextJson(a.approvedByUserId))
  {
    var f := ApprovalFields(r, a);
    TableShows(f);
    assert f[0].key == "required" && f[1].key == "status" && f[2].key == "reason" && f[3].key == "requestedAt"
      && f[4].key == "requestedByUserId" && f[5].key == "approvedAt" && f[6].key == "approvedByUserId";
  }

  lemma ApprovalReads(r: Reader, a: ApprovalMeta)
    requires FaithfulDates(r) && ApprovalNormal(a)
    ensures ReadApproval(r, MembersOf(ApprovalFields(r, a))) == a <==> ApprovalStable(a)
  {
    GetApproval(r, a);
    StatusReads(a.status, a.required);
    TextReads(a.reason, 280);
    TextReads(a.requestedByUserId, 120);
    TextReads(a.approvedByUserId, 120);
    DateReads(r, a.requestedAt);
    DateReads(r, a.approvedAt);
  }

  lemma GetCanary(r: Reader, c: CanaryMeta)
    ensures var m := MembersOf(CanaryFields(r, c));
            && Get(m, "enabled") == Some(Bool(c.enabled)) && Get(m, "rolloutPercent") == Some(Num(c.rolloutPercent))
            && Get(m, "bucket") == Some(Num(c.bucket)) && Get(m, "selected") == Some(Bool(c.selected))
            && Get(m, "checks") == Some(Strings(c.checks))
            && Get(m, "lastCheckedAt") == Some(DateJson(r, c.lastCheckedAt))
            && Get(m, "passed") == Some(BoolJson(c.passed)) && Get(m, "error") == Some(TextJson(c.error))
  {
    var f := CanaryFields(r, c);
    TableShows(f);
    assert f[0].key == "enabled" && f[1].key == "rolloutPercent" && f[2].key == "bucket" && f[3].key == "selected"
      && f[4].key == "checks" && f[5].key == "lastCheckedAt" && f[6].key == "passed" && f[7].key == "error";
  }

  lemma CanaryReads(r: Reader, c: CanaryMeta)
    requires FaithfulDates(r) && CanaryNormal(c)
    ensures ReadCanary(r, MembersOf(CanaryFields(r, c))) == c <==> TextStable(c.error, 1000)
  {
    GetCanary(r, c);
    StringsRead(c.checks);
    TextReads(c.error, 1000);
    DateReads(r, c.lastCheckedAt);
  }

  lemma GetRollback(r: Reader, b: RollbackMeta)
    ensures var m := MembersOf(RollbackFields(r, b));
            && Get(m, "enabled") == Some(Bool(b.enabled)) && Get(m, "attempted") == Some(Bool(b.attempted))
            && Get(m, "succeeded") == Some(BoolJson(b.succeeded)) && Get(m, "commands") == Some(Strings(b.commands))
            && Get(m, "lastRunAt") == Some(DateJson(r, b.lastRunAt)) && Get(m, "error") == Some(TextJson(b.error))
  {
    var f := RollbackFields(r, b);
    TableShows(f);
    assert f[0].key == "enabled" && f[1].key == "attempted" && f[2].key == "succeeded" && f[3].key == "commands"
      && f[4].key == "lastRunAt" && f[5].key == "error";
  }

  lemma RollbackReads(r: Reader, b: RollbackMeta)
    requires FaithfulDates(r) && RollbackNormal(b)
    ensures ReadRollback(r, MembersOf(RollbackFields(r, b))) == b <==> TextStable(b.error, 1000)
  {
    GetRollback(r, b);
    StringsRead(b.commands);
    CleanStay(b.commands);
    TextReads(b.error, 1000);
    DateReads(r, b.lastRunAt);
  }

  function WrittenQueue(r: Reader, q: QueueMeta): RawQueue {
    RawQueue(
      Some(Num(q.attempts)), Some(Num(q.maxAttempts)),
      Some(DateJson(r, q.nextAttemptAt)), Some(DateJson(r, q.lastAttemptAt)),
      Some(TextJson(q.lastError)), Some(Bool(q.dlq)), Some(TextJson(q.dlqReason)), Some(TextJson(q.replayOfRunId)),
      Some(Record(ApprovalFields(r, q.approval))), Some(Record(CanaryFields(r, q.canary))),
      Some(Record(RollbackFields(r, q.rollback))),
      Some(Bool(q.autoQueued)), Some(TextJson(q.autoReason)), Some(TextJson(q.autoTier)))
  }

  /** What reading finds in the written queue metadata. */
  lemma GetWholeQueue(r: Reader, q: QueueMeta)
    ensures RawQueueOf(MembersOf(QueueFields(r, q))) == WrittenQueue(r, q)
  {
    var f := QueueFields(r, q);
    QueueKeysDiffer(r, q);
    TableShows(f);
    assert f[1].key == "attempts" && f[2].key == "maxAttempts" && f[3].key == "nextAttemptAt"
      && f[4].key == "lastAttemptAt" && f[5].key == "lastError" && f[6].key == "dlq" && f[7].key == "dlqReason"
      && f[8].key == "replayOfRunId" && f[9].key == "approval" && f[10].key == "canary" && f[11].key == "rollback"
      && f[12].key == "autoQueued" && f[13].key == "autoReason" && f[14].key == "autoTier";
  }

  lemma DistinctTogether(a: seq<Field>, b: seq<Field>)
    requires DistinctFields(a) && DistinctFields(b)
    requires forall i, j | 0 <= i < |a| && 0 <= j < |b| :: a[i].key != b[j].key
    ensures DistinctFields(a + b)
  {
  }

  lemma FirstKeysDiffer(r: Reader, q: QueueMeta)
    ensures DistinctFields(CounterFields(r, q) + ErrorFields(q))
  {
    DistinctTogether(CounterFields(r, q), ErrorFields(q));
  }

  lemma LastKeysDiffer(r: Reader, q: QueueMeta)
    ensures DistinctFields(PartFields(r, q) + AutoFields(q))
  {
    DistinctTogether(PartFields(r, q), AutoFields(q));
  }

  lemma QueueKeysDiffer(r: Reader, q: QueueMeta)
    ensures DistinctFields(QueueFields(r, q))
  {
    var first, last := CounterFields(r, q) + ErrorFields(q), PartFields(r, q) + AutoFields(q);
    FirstKeysDiffer(r, q);
    LastKeysDiffer(r, q);
    assert QueueFields(r, q) == first + last;
    DistinctTogether(first, last);
  }

  predicate QueueStable(q: QueueMeta) {
    && TextStable(q.lastError, 1200) && TextStable(q.dlqReason, 600) && TextStable(q.replayOfRunId, 120)
    && TextStable(q.autoReason, 400) && TextStable(q.autoTier, 40)
    && ApprovalStable(q.approval) && TextStable(q.canary.error, 1000) && TextStable(q.rollback.error, 1000)
  }

  lemma QueueReads(r: Reader, q: QueueMeta, defaultMaxAttempts: int)
    requires FaithfulDates(r) && QueueNormal(q)
    ensures NormalizeQueue(r, WrittenQueue(r, q), defaultMaxAttempts) == q <==> QueueStable(q)
  {
    TextReads(q.lastError, 1200);
    TextReads(q.dlqReason, 600);
    TextReads(q.replayOfRunId, 120);
    TextReads(q.autoReason, 400);
    TextReads(q.autoTier, 40);
    DateReads(r, q.lastAttemptAt);
    ApprovalReads(r, q.approval);
    CanaryReads(r, q.canary);
    RollbackReads(r, q.rollback);
    ScalarsRead(r, q, defaultMaxAttempts);
  }

  lemma ScalarsRead(r: Reader, q: QueueMeta, defaultMaxAttempts: int)
    requires FaithfulDates(r) && QueueNormal(q)
    ensures var back := NormalizeQueue(r, WrittenQueue(r, q), defaultMaxAttempts);
            && back.attempts == q.attempts && back.maxAttempts == q.maxAttempts && back.dlq == q.dlq
            && back.autoQueued == q.autoQueued && back.nextAttemptAt == q.nextAttemptAt
  {
    DateReads(r, q.nextAttemptAt);
    GetApproval(r, q.approval);
    StatusReads(q.approval.status, q.approval.required);
  }

  function WrittenPayload(r: Reader, p: Payload): RawPayload {
    RawPayload(Some(Str("execute")), Some(Str(p.actionId)),
               if p.profile.Some? then Some(Str(p.profile.value)) else None,
               Some(Strings(p.sourceCodes)), Some(Strings(p.commands)), Some(Strings(p.rollbackNotes)),
               Some(Record(QueueFields(r, p.queue))))
  }

  lemma GetWholePayload(r: Reader, p: Payload)
    ensures RawPayloadOf(MembersOf(PayloadFields(r, p))) == WrittenPayload(r, p)
  {
    var f := PayloadFields(r, p);
    var k := if p.profile.Some? then 3 else 2;
    PayloadKeysDiffer(r, p);
    TableShows(f);
    assert f[0].key == "mode" && f[1].key == "actionId" && f[k].key == "sourceCodes" && f[k + 1].key == "commands"
      && f[k + 2].key == "rollbackNotes" && f[k + 3].key == "queue";
    if p.profile.Some? { assert f[2].key == "profile"; } else { GetOther(f, "profile"); }
  }

  lemma PayloadKeysDiffer(r: Reader, p: Payload)
    ensures DistinctFields(PayloadFields(r, p))
  {
  }

  lemma PayloadReads(r: Reader, p: Payload, defaultMaxAttempts: int)
    requires Normal(p)
    ensures NormalizePayload(r, WrittenPayload(r, p), defaultMaxAttempts)
         == Some(p.(queue := ReadQueue(r, Some(Record(QueueFields(r, p.queue))), defaultMaxAttempts)))
  {
    StringsRead(p.commands);
    CleanStay(p.commands);
    StringsRead(p.sourceCodes);
    StringsRead(p.rollbackNotes);
  }

  /** parseExecuteRunPayload on stored text that JSON.stringify has written. */
  ghost function ReadStored(r: Reader, text: string, defaultMaxAttempts: int): Option<Payload> {
    var parsed := Parse(text);
    if parsed.None? then None else ReadPayload(r, parsed.value, defaultMaxAttempts)
  }

  /** Everything but the queue metadata always comes back as it was written. */
  lemma RoundTripKeepsTheRest(r: Reader, p: Payload, defaultMaxAttempts: int)
    requires Normal(p)
    ensures var back := ReadStored(r, Serialize(r, p), defaultMaxAttempts);
            back.Some? && back.value == p.(queue := back.value.queue)
    ensures ReadStored(r, Serialize(r, p), defaultMaxAttempts)
         == Some(p.(queue := ReadQueue(r, Some(Record(QueueFields(r, p.queue))), defaultMaxAttempts)))
  {
    ParsingUndoesPrinting(ToJson(r, p));
    GetWholePayload(r, p);
    PayloadReads(r, p, defaultMaxAttempts);
  }

  /** Reading back the text that was written gives the same payload exactly when its own texts are
      within their limits (or end in the one truncation note that counts itself). */
  lemma RoundTrip(r: Reader, p: Payload, defaultMaxAttempts: int)
    requires FaithfulDates(r) && Normal(p)
    ensures ReadStored(r, Serialize(r, p), defaultMaxAttempts) == Some(p) <==> QueueStable(p.queue)
  {
    RoundTripKeepsTheRest(r, p, defaultMaxAttempts);
    GetWholeQueue(r, p.queue);
    QueueReads(r, p.queue, defaultMaxAttempts);
  }
}
