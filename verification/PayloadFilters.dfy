/** What the substring filters of the queries find in the stored text of runs, whatever text the
    commands, notes and errors contain (src/lib/remediate/queue.ts,
    src/lib/remediate/autonomous-runtime.ts, src/app/api/remediate/route.ts). */
module PayloadFilters {
  import opened Common
  import opened QueueRuntime
  import opened JsonText
  import opened PayloadJson

  // ---------------------------------------------------------------- filters over tables

  predicate FieldHolds(f: Field, key: string, p: Probe) {
    (f.key == key && ValuePasses(p, f.value)) || HasMember(f.value, key, p)
  }

  predicate TableHolds(fields: seq<Field>, key: string, p: Probe) {
    exists i | 0 <= i < |fields| :: FieldHolds(fields[i], key, p)
  }

  lemma {:induction false} RecordHolds(fields: seq<Field>, key: string, p: Probe)
    ensures HasMember(Record(fields), key, p) <==> TableHolds(fields, key, p)
    ensures MembersHaveMember(MembersOf(fields), key, p) <==> TableHolds(fields, key, p)
  {
    if fields != [] {
      var rest := fields[1..];
      RecordHolds(rest, key, p);
      assert forall i | 0 <= i < |rest| :: rest[i] == fields[i + 1];
      assert TableHolds(fields, key, p) <==> FieldHolds(fields[0], key, p) || TableHolds(rest, key, p) by {
        if TableHolds(rest, key, p) {
          var i :| 0 <= i < |rest| && FieldHolds(rest[i], key, p);
          assert FieldHolds(fields[i + 1], key, p);
        }
        if i :| 0 <= i < |fields| && FieldHolds(fields[i], key, p) {
          if i > 0 { assert FieldHolds(rest[i - 1], key, p); }
        }
      }
    }
  }

  lemma TablesHold(a: seq<Field>, b: seq<Field>, key: string, p: Probe)
    ensures TableHolds(a + b, key, p) <==> TableHolds(a, key, p) || TableHolds(b, key, p)
  {
    if i :| 0 <= i < |a| && FieldHolds(a[i], key, p) { assert (a + b)[i] == a[i]; }
    if i :| 0 <= i < |b| && FieldHolds(b[i], key, p) { assert (a + b)[|a| + i] == b[i]; }
    if i :| 0 <= i < |a + b| && FieldHolds((a + b)[i], key, p) {
      assert (a + b)[i] == if i < |a| then a[i] else b[i - |a|];
    }
  }

  predicate PlainTable(fields: seq<Field>) {
    forall i | 0 <= i < |fields| :: Plain(fields[i].key) && KeysPlain(fields[i].value)
  }

  lemma PlainTables(a: seq<Field>, b: seq<Field>)
    requires PlainTable(a) && PlainTable(b)
    ensures PlainTable(a + b)
  {
  }

  lemma {:induction false} RecordIsPlain(fields: seq<Field>)
    requires PlainTable(fields)
    ensures KeysPlain(Record(fields)) && MemberKeysPlain(MembersOf(fields))
  {
    if fields != [] { RecordIsPlain(fields[1..]); }
  }

  lemma {:induction false} StringsHold(xs: seq<string>, key: string, p: Probe)
    ensures !ItemsHaveMember(ItemsOf(xs), key, p) && !HasMember(Strings(xs), key, p)
  {
    if xs != [] { StringsHold(xs[1..], key, p); }
  }

  lemma {:induction false} StringsArePlain(xs: seq<string>)
    ensures ItemKeysPlain(ItemsOf(xs)) && KeysPlain(Strings(xs))
  {
    if xs != [] { StringsArePlain(xs[1..]); }
  }

  // ---------------------------------------------------------------- the tables of a stored run

  lemma ApprovalIsPlain(r: Reader, a: ApprovalMeta)
    ensures PlainTable(ApprovalFields(r, a))
  {
    assert Plain("required") && Plain("status") && Plain("reason") && Plain("requestedAt") &&
      Plain("requestedByUserId") && Plain("approvedAt") && Plain("approvedByUserId");
  }

  lemma CanaryIsPlain(r: Reader, c: CanaryMeta)
    ensures PlainTable(CanaryFields(r, c))
  {
    StringsArePlain(c.checks);
  }

  lemma RollbackIsPlain(r: Reader, b: RollbackMeta)
    ensures PlainTable(RollbackFields(r, b))
  {
    StringsArePlain(b.commands);
  }

  lemma CountersArePlain(r: Reader, q: QueueMeta)
    ensures PlainTable(CounterFields(r, q))
  {
    assert Plain("version") && Plain("attempts") && Plain("maxAttempts") && Plain("nextAttemptAt")
      && Plain("lastAttemptAt");
  }

  lemma ErrorsArePlain(q: QueueMeta)
    ensures PlainTable(ErrorFields(q))
  {
    assert Plain("lastError") && Plain("dlq") && Plain("dlqReason") && Plain("replayOfRunId");
  }

  lemma PartsArePlain(r: Reader, q: QueueMeta)
    ensures PlainTable(PartFields(r, q))
  {
    ApprovalIsPlain(r, q.approval);
    CanaryIsPlain(r, q.canary);
    RollbackIsPlain(r, q.rollback);
    RecordIsPlain(ApprovalFields(r, q.approval));
    RecordIsPlain(CanaryFields(r, q.canary));
    RecordIsPlain(RollbackFields(r, q.rollback));
    assert Plain("approval") && Plain("canary") && Plain("rollback");
  }

  lemma AutoIsPlain(q: QueueMeta)
    ensures PlainTable(AutoFields(q))
  {
    assert Plain("autoQueued") && Plain("autoReason") && Plain("autoTier");
  }

  lemma QueueIsPlain(r: Reader, q: QueueMeta)
    ensures KeysPlain(Record(QueueFields(r, q)))
  {
    CountersArePlain(r, q);
    ErrorsArePlain(q);
    PartsArePlain(r, q);
    AutoIsPlain(q);
    PlainTables(CounterFields(r, q), ErrorFields(q));
    PlainTables(CounterFields(r, q) + ErrorFields(q), PartFields(r, q));
    PlainTables(CounterFields(r, q) + ErrorFields(q) + PartFields(r, q), AutoFields(q));
    RecordIsPlain(QueueFields(r, q));
  }

  lemma HeadIsPlain(mode: string, actionId: string, profile: Option<string>, sourceCodes: seq<string>,
                    commands: seq<string>, rollbackNotes: seq<string>)
    ensures PlainTable(HeadFields(mode, actionId, profile, sourceCodes, commands, rollbackNotes))
  {
    StringsArePlain(sourceCodes);
    StringsArePlain(commands);
    StringsArePlain(rollbackNotes);
    assert Plain("mode") && Plain("actionId") && Plain("profile") && Plain("sourceCodes") && Plain("commands")
      && Plain("rollbackNotes");
  }

  /** The keys the filters ask for. */
  predicate FilterName(key: string) {
    key in {"mode", "dlq", "required", "status", "nextAttemptAt", "autoQueued"}
  }

  predicate ApprovalMatches(a: ApprovalMeta, key: string, p: Probe) {
    || (key == "required" && ValuePasses(p, Bool(a.required)))
    || (key == "status" && ValuePasses(p, Str(StatusText(a.status))))
  }

  lemma ApprovalHolds(r: Reader, a: ApprovalMeta, key: string, p: Probe)
    requires FilterName(key)
    ensures TableHolds(ApprovalFields(r, a), key, p) <==> ApprovalMatches(a, key, p)
  {
    var f := ApprovalFields(r, a);
    assert key !in {"reason", "requestedAt", "requestedByUserId", "approvedAt", "approvedByUserId"};
    if key == "required" && ValuePasses(p, Bool(a.required)) { assert FieldHolds(f[0], key, p); }
    if key == "status" && ValuePasses(p, Str(StatusText(a.status))) { assert FieldHolds(f[1], key, p); }
  }

  lemma CanaryHoldsNone(r: Reader, c: CanaryMeta, key: string, p: Probe)
    requires FilterName(key)
    ensures !HasMember(Record(CanaryFields(r, c)), key, p)
  {
    RecordHolds(CanaryFields(r, c), key, p);
    StringsHold(c.checks, key, p);
  }

  lemma RollbackHoldsNone(r: Reader, b: RollbackMeta, key: string, p: Probe)
    requires FilterName(key)
    ensures !HasMember(Record(RollbackFields(r, b)), key, p)
  {
    RecordHolds(RollbackFields(r, b), key, p);
    StringsHold(b.commands, key, p);
  }

  lemma CountersHold(r: Reader, q: QueueMeta, key: string, p: Probe)
    requires FilterName(key)
    ensures TableHolds(CounterFields(r, q), key, p) <==>
              key == "nextAttemptAt" && ValuePasses(p, DateJson(r, q.nextAttemptAt))
  {
    var f := CounterFields(r, q);
    if key == "nextAttemptAt" && ValuePasses(p, DateJson(r, q.nextAttemptAt)) { assert FieldHolds(f[3], key, p); }
  }

  lemma ErrorsHold(q: QueueMeta, key: string, p: Probe)
    requires FilterName(key)
    ensures TableHolds(ErrorFields(q), key, p) <==> key == "dlq" && ValuePasses(p, Bool(q.dlq))
  {
    var f := ErrorFields(q);
    if key == "dlq" && ValuePasses(p, Bool(q.dlq)) { assert FieldHolds(f[1], key, p); }
  }

  lemma PartsHold(r: Reader, q: QueueMeta, key: string, p: Probe)
    requires FilterName(key)
    ensures TableHolds(PartFields(r, q), key, p) <==> ApprovalMatches(q.approval, key, p)
  {
    var f := PartFields(r, q);
    ApprovalHolds(r, q.approval, key, p);
    RecordHolds(ApprovalFields(r, q.approval), key, p);
    CanaryHoldsNone(r, q.canary, key, p);
    RollbackHoldsNone(r, q.rollback, key, p);
    if ApprovalMatches(q.approval, key, p) { assert FieldHolds(f[0], key, p); }
  }

  lemma AutoHolds(q: QueueMeta, key: string, p: Probe)
    requires FilterName(key)
    ensures TableHolds(AutoFields(q), key, p) <==> key == "autoQueued" && ValuePasses(p, Bool(q.autoQueued))
  {
    var f := AutoFields(q);
    if key == "autoQueued" && ValuePasses(p, Bool(q.autoQueued)) { assert FieldHolds(f[0], key, p); }
  }

  lemma QueueHolds(r: Reader, q: QueueMeta, key: string, p: Probe)
    requires FilterName(key)
    ensures HasMember(Record(QueueFields(r, q)), key, p) <==>
              || (key == "nextAttemptAt" && ValuePasses(p, DateJson(r, q.nextAttemptAt)))
              || (key == "dlq" && ValuePasses(p, Bool(q.dlq)))
              || (key == "autoQueued" && ValuePasses(p, Bool(q.autoQueued)))
              || ApprovalMatches(q.approval, key, p)
  {
    RecordHolds(QueueFields(r, q), key, p);
    TablesHold(CounterFields(r, q) + ErrorFields(q) + PartFields(r, q), AutoFields(q), key, p);
    TablesHold(CounterFields(r, q) + ErrorFields(q), PartFields(r, q), key, p);
    TablesHold(CounterFields(r, q), ErrorFields(q), key, p);
    CountersHold(r, q, key, p);
    ErrorsHold(q, key, p);
    PartsHold(r, q, key, p);
    AutoHolds(q, key, p);
  }

  lemma HeadHolds(mode: string, actionId: string, profile: Option<string>, sourceCodes: seq<string>,
                  commands: seq<string>, rollbackNotes: seq<string>, key: string, p: Probe)
    requires FilterName(key)
    ensures TableHolds(HeadFields(mode, actionId, profile, sourceCodes, commands, rollbackNotes), key, p) <==>
              key == "mode" && ValuePasses(p, Str(mode))
  {
    var f := HeadFields(mode, actionId, profile, sourceCodes, commands, rollbackNotes);
    StringsHold(sourceCodes, key, p);
    StringsHold(commands, key, p);
    StringsHold(rollbackNotes, key, p);
    if key == "mode" && ValuePasses(p, Str(mode)) { assert FieldHolds(f[0], key, p); }
  }

  // ---------------------------------------------------------------- both kinds of stored runs

  /** What the manual route stores for a dry run. */
  datatype DryRun = DryRun(actionId: string, profile: Option<string>, sourceCodes: seq<string>,
                           commands: seq<string>, rollbackNotes: seq<string>)

  datatype Stored = Execute(payload: Payload) | Dry(run: DryRun)

  function DryRunFields(d: DryRun): seq<Field> {
    HeadFields("dry-run", d.actionId, d.profile, d.sourceCodes, d.commands, d.rollbackNotes)
  }

  function StoredJson(r: Reader, s: Stored): Json {
    match s
    case Execute(payload) => ToJson(r, payload)
    case Dry(run) => Record(DryRunFields(run))
  }

  function ModeOf(s: Stored): string { if s.Execute? then "execute" else "dry-run" }

  function StoredText(r: Reader, s: Stored): string { Print(StoredJson(r, s)) }

  lemma StoredIsPlain(r: Reader, s: Stored)
    ensures KeysPlain(StoredJson(r, s))
  {
    match s
    case Dry(d) =>
      HeadIsPlain("dry-run", d.actionId, d.profile, d.sourceCodes, d.commands, d.rollbackNotes);
      RecordIsPlain(DryRunFields(d));
    case Execute(e) =>
      HeadIsPlain("execute", e.actionId, e.profile, e.sourceCodes, e.commands, e.rollbackNotes);
      QueueIsPlain(r, e.queue);
      RecordIsPlain(PayloadFields(r, e));
  }

  lemma StoredHolds(r: Reader, s: Stored, key: string, p: Probe)
    requires FilterName(key)
    ensures HasMember(StoredJson(r, s), key, p) <==>
              || (key == "mode" && ValuePasses(p, Str(ModeOf(s))))
              || (s.Execute? && HasMember(Record(QueueFields(r, s.payload.queue)), key, p))
  {
    match s
    case Dry(d) =>
      HeadHolds("dry-run", d.actionId, d.profile, d.sourceCodes, d.commands, d.rollbackNotes, key, p);
      RecordHolds(DryRunFields(d), key, p);
    case Execute(e) =>
      var head := HeadFields("execute", e.actionId, e.profile, e.sourceCodes, e.commands, e.rollbackNotes);
      var queue := [Field("queue", Record(QueueFields(r, e.queue)))];
      HeadHolds("execute", e.actionId, e.profile, e.sourceCodes, e.commands, e.rollbackNotes, key, p);
      RecordHolds(PayloadFields(r, e), key, p);
      TablesHold(head, queue, key, p);
      if HasMember(Record(QueueFields(r, e.queue)), key, p) { assert FieldHolds(queue[0], key, p); }
  }

  /** A filter finds the stored runs that have such a field. */
  lemma FilterMeans(r: Reader, s: Stored, key: string, p: Probe)
    requires FilterName(key) && FilterKey(key) && (p.Equals? ==> Plain(p.word))
    ensures Occurs(Pattern(key, p), StoredText(r, s)) <==>
              || (key == "mode" && ValuePasses(p, Str(ModeOf(s))))
              || (s.Execute? &&
                  var q := s.payload.queue;
                  || (key == "nextAttemptAt" && ValuePasses(p, DateJson(r, q.nextAttemptAt)))
                  || (key == "dlq" && ValuePasses(p, Bool(q.dlq)))
                  || (key == "required" && ValuePasses(p, Bool(q.approval.required)))
                  || (key == "status" && ValuePasses(p, Str(StatusText(q.approval.status))))
                  || (key == "autoQueued" && ValuePasses(p, Bool(q.autoQueued))))
  {
    StoredIsPlain(r, s);
    StoredHolds(r, s, key, p);
    FilterIsExact(StoredJson(r, s), key, p);
    if s.Execute? { QueueHolds(r, s.payload.queue, key, p); }
  }

  /** The filter of every queue query finds exactly the execute runs. */
  lemma ExecuteFilter(r: Reader, s: Stored)
    ensures Occurs("\"mode\":\"execute\"", StoredText(r, s)) <==> s.Execute?
  {
    assert Pattern("mode", Equals("execute")) == "\"mode\":\"execute\"";
    assert "execute" != "dry-run" by { assert |"execute"| == |"dry-run"| && "execute"[0] != "dry-run"[0]; }
    FilterMeans(r, s, "mode", Equals("execute"));
  }

  /** The filter that looks for a recent dry run finds exactly the dry runs. */
  lemma DryRunFilter(r: Reader, s: Stored)
    ensures Occurs("\"mode\":\"dry-run\"", StoredText(r, s)) <==> s.Dry?
  {
    assert Pattern("mode", Equals("dry-run")) == "\"mode\":\"dry-run\"";
    assert "execute" != "dry-run" by { assert |"execute"| == |"dry-run"| && "execute"[0] != "dry-run"[0]; }
    FilterMeans(r, s, "mode", Equals("dry-run"));
  }

  lemma DlqFilter(r: Reader, s: Stored)
    ensures Occurs("\"dlq\":true", StoredText(r, s)) <==> s.Execute? && s.payload.queue.dlq
  {
    assert Pattern("dlq", IsTrue) == "\"dlq\":true";
    FilterMeans(r, s, "dlq", IsTrue);
  }

  lemma RequiredFilter(r: Reader, s: Stored)
    ensures Occurs("\"required\":true", StoredText(r, s)) <==> s.Execute? && s.payload.queue.approval.required
  {
    assert Pattern("required", IsTrue) == "\"required\":true";
    FilterMeans(r, s, "required", IsTrue);
  }

  lemma StatusFilter(r: Reader, s: Stored)
    ensures Occurs("\"status\":\"pending\"", StoredText(r, s)) <==>
              s.Execute? && s.payload.queue.approval.status == Pending
  {
    assert Pattern("status", Equals("pending")) == "\"status\":\"pending\"";
    FilterMeans(r, s, "status", Equals("pending"));
  }

  lemma NextAttemptFilter(r: Reader, s: Stored)
    ensures Occurs("\"nextAttemptAt\":\"", StoredText(r, s)) <==> s.Execute? && s.payload.queue.nextAttemptAt.Some?
  {
    assert Pattern("nextAttemptAt", IsString) == "\"nextAttemptAt\":\"";
    FilterMeans(r, s, "nextAttemptAt", IsString);
  }

  lemma AutoQueuedFilter(r: Reader, s: Stored)
    ensures Occurs("\"autoQueued\":true", StoredText(r, s)) <==> s.Execute? && s.payload.queue.autoQueued
  {
    assert Pattern("autoQueued", IsTrue) == "\"autoQueued\":true";
    FilterMeans(r, s, "autoQueued", IsTrue);
  }

  /** Of everything the two writers store, each substring filter finds exactly the runs it is meant
      to find, whatever text their commands, notes and errors contain. */
  lemma FiltersFindTheField(r: Reader, s: Stored)
    ensures var text := StoredText(r, s);
            && (Occurs("\"mode\":\"execute\"", text) <==> s.Execute?)
            && (Occurs("\"mode\":\"dry-run\"", text) <==> s.Dry?)
            && (Occurs("\"dlq\":true", text) <==> s.Execute? && s.payload.queue.dlq)
            && (Occurs("\"required\":true", text) <==> s.Execute? && s.payload.queue.approval.required)
            && (Occurs("\"status\":\"pending\"", text) <==> s.Execute? && s.payload.queue.approval.status == Pending)
            && (Occurs("\"nextAttemptAt\":\"", text) <==> s.Execute? && s.payload.queue.nextAttemptAt.Some?)
            && (Occurs("\"autoQueued\":true", text) <==> s.Execute? && s.payload.queue.autoQueued)
  {
    ExecuteFilter(r, s);
    DryRunFilter(r, s);
    DlqFilter(r, s);
    RequiredFilter(r, s);
    StatusFilter(r, s);
    NextAttemptFilter(r, s);
    AutoQueuedFilter(r, s);
  }
}
