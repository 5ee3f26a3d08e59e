/** The incident life cycle with its event log and escalation timers (src/lib/ops/incident-engine.ts).
    Instants are milliseconds; each operation is one transaction; the escalation sweep reads its
    candidates in one access and writes each of them in a later one. */
module IncidentEngine {
  import opened Common
  import Sorting

  datatype Level = CriticalLevel | HighLevel | MediumLevel
  datatype State = Open | Acknowledged | Resolved | Closed
  datatype PostmortemStatus = NotStarted | Draft | Published

  /** The postmortem's summary, impact, root cause and action items. */
  datatype Texts = Texts(summary: Option<string>, impact: Option<string>, rootCause: Option<string>,
                         actionItems: Option<string>)

  /** A supplied text replaces or clears the stored one; None leaves it as it is. */
  datatype Edits = Edits(summary: Option<Option<string>>, impact: Option<Option<string>>,
                         rootCause: Option<Option<string>>, actionItems: Option<Option<string>>)

  const NO_EDITS := Edits(None, None, None, None)

  function Edited(t: Texts, e: Edits): Texts {
    Texts(e.summary.GetOr(t.summary), e.impact.GetOr(t.impact), e.rootCause.GetOr(t.rootCause),
          e.actionItems.GetOr(t.actionItems))
  }

  datatype Row = Row(
    level: Level,
    state: State,
    assigneeUserId: Option<string>,
    assigneeEmail: Option<string>,
    ackDueAt: Option<int>,
    nextEscalationAt: Option<int>,
    escalatedAt: Option<int>,
    escalationCount: int,
    acknowledgedAt: Option<int>,
    resolvedAt: Option<int>,
    closedAt: Option<int>,
    postmortem: PostmortemStatus,
    publishedAt: Option<int>,
    texts: Texts)

  datatype Event =
    | CreatedEvent(ackAt: int, nextAt: int)
    | AssignedEvent(userId: Option<string>, email: Option<string>)
    | NoteEvent(text: string)
    | AcknowledgedEvent
    | ResolvedEvent(postmortem: PostmortemStatus)
    | ClosedEvent
    | ReopenedEvent(ackAt: int, nextAt: int)
    | PostmortemEvent(status: Option<PostmortemStatus>, edits: Edits)
    | EscalatedEvent(number: int, nextAt: int)

  /** The events of one incident, oldest innermost, each with its instant. */
  datatype Log = NoEvents | Then(past: Log, at: int, last: Event)

  datatype Incident = Incident(row: Row, log: Log)

  // ---------------------------------------------------------------- timers

  datatype TimerPolicy = TimerPolicy(ackMinutes: int, escalationMinutes: int)

  /** The environment's overrides for a level, where they parse to an integer. */
  datatype Overrides = Overrides(ackMinutes: Option<int>, escalationMinutes: Option<int>)

  type Environment = Level -> Overrides

  function MinutesIn(v: Option<int>, fallback: int): int {
    if v.Some? then ClampInt(v.value, 1, 24 * 60) else fallback
  }

  /** incidentTimerPolicyForSeverity */
  function PolicyFor(env: Environment, level: Level): (p: TimerPolicy)
    ensures 1 <= p.ackMinutes <= 24 * 60 && 1 <= p.escalationMinutes <= 24 * 60
  {
    var base := match level
                case CriticalLevel => TimerPolicy(5, 10)
                case HighLevel => TimerPolicy(15, 20)
                case MediumLevel => TimerPolicy(30, 45);
    TimerPolicy(MinutesIn(env(level).ackMinutes, base.ackMinutes),
                MinutesIn(env(level).escalationMinutes, base.escalationMinutes))
  }

  function AddMinutes(at: int, minutes: int): int { at + minutes * 60_000 }

  /** The minutes until the acknowledgement is due: what was supplied or else what the environment says,
      between a minute and a day, or else what the level is worth. */
  function AckMinutes(env: Environment, level: Level, supplied: Option<int>): int {
    if supplied.Some? then Max(1, Min(supplied.value, 1440))
    else if env(level).ackMinutes.Some? then Max(1, Min(env(level).ackMinutes.value, 1440))
    else match level case CriticalLevel => 5 case HighLevel => 15 case MediumLevel => 30
  }

  /** The minutes between escalations, likewise. */
  function EscalationMinutes(env: Environment, level: Level, supplied: Option<int>): int {
    if supplied.Some? then Max(1, Min(supplied.value, 1440))
    else if env(level).escalationMinutes.Some? then Max(1, Min(env(level).escalationMinutes.value, 1440))
    else match level case CriticalLevel => 10 case HighLevel => 20 case MediumLevel => 45
  }

  datatype Timers = Timers(ackDueAt: int, nextEscalationAt: int)

  /** computeIncidentTimers */
  function TimersFrom(env: Environment, level: Level, now: int, ack: Option<int>, escalation: Option<int>): (t: Timers)
    ensures t.nextEscalationAt > t.ackDueAt > now
  {
    var policy := PolicyFor(env, level);
    var ackDueAt := AddMinutes(now, MinutesIn(ack, policy.ackMinutes));
    Timers(ackDueAt, AddMinutes(ackDueAt, MinutesIn(escalation, policy.escalationMinutes)))
  }

  /** The acknowledgement is due after its minutes, the escalation after its own minutes from then; the
      minutes of the escalation have no say in when the acknowledgement is due. */
  lemma TimersAreExact(env: Environment, level: Level, now: int, ack: Option<int>, escalation: Option<int>,
                       other: Option<int>)
    ensures var t := TimersFrom(env, level, now, ack, escalation);
            && t.ackDueAt - now == 60_000 * AckMinutes(env, level, ack)
            && t.nextEscalationAt - t.ackDueAt == 60_000 * EscalationMinutes(env, level, escalation)
            && TimersFrom(env, level, now, ack, other).ackDueAt == t.ackDueAt
  {
  }

  // ---------------------------------------------------------------- operations

  datatype Action =
    | Assign(userId: Option<string>, email: Option<string>)
    | Acknowledge
    | Resolve
    | Close
    | Reopen
    | AddNote(text: string)
    | UpdatePostmortem(status: Option<PostmortemStatus>, edits: Edits)

  /** canRunIncidentAction */
  predicate CanRun(state: State, action: Action) {
    match action
    case Assign(_, _) => state != Closed
    case AddNote(_) => state != Closed
    case UpdatePostmortem(_, _) => state != Closed
    case Acknowledge => state == Open || state == Acknowledged
    case Resolve => state == Open || state == Acknowledged || state == Resolved
    case Close => state == Resolved || state == Closed
    case Reopen => state != Open
  }

  /** What can be done in each state: an open incident is not closed or reopened, an acknowledged one not
      closed, a resolved one not acknowledged, and a closed one only closed again or reopened. */
  predicate Possible(state: State, action: Action) {
    match state
    case Open => !action.Close? && !action.Reopen?
    case Acknowledged => !action.Close?
    case Resolved => !action.Acknowledge?
    case Closed => action.Close? || action.Reopen?
  }

  lemma CanRunWhatIsPossible(state: State, action: Action)
    ensures CanRun(state, action) <==> Possible(state, action)
  {
  }

  function NewIncident(env: Environment, level: Level, now: int, ack: Option<int>, escalation: Option<int>,
                       userId: Option<string>, email: Option<string>, note: Option<string>): Incident {
    var timers := TimersFrom(env, level, now, ack, escalation);
    var created := Then(NoEvents, now, CreatedEvent(timers.ackDueAt, timers.nextEscalationAt));
    var withAssignee :=
      if userId.Some? || email.Some? then Then(created, now, AssignedEvent(userId, email)) else created;
    Incident(
      Row(level, Open, userId, email, Some(timers.ackDueAt), Some(timers.nextEscalationAt), None, 0,
          None, None, None, NotStarted, None, Texts(None, None, None, None)),
      if note.Some? then Then(withAssignee, now, NoteEvent(note.value)) else withAssignee)
  }

  /** The transaction of each operation, once the state allows it. */
  function Perform(env: Environment, i: Incident, action: Action, now: int): Incident {
    var r := i.row;
    match action
    case Assign(userId, email) =>
      Incident(r.(assigneeUserId := userId, assigneeEmail := email), Then(i.log, now, AssignedEvent(userId, email)))
    case Acknowledge =>
      Incident(r.(state := Acknowledged, acknowledgedAt := Some(now), nextEscalationAt := None),
               Then(i.log, now, AcknowledgedEvent))
    case Resolve =>
      var postmortem := if r.postmortem == NotStarted then Draft else r.postmortem;
      Incident(r.(state := Resolved, resolvedAt := Some(now), nextEscalationAt := None, postmortem := postmortem),
               Then(i.log, now, ResolvedEvent(postmortem)))
    case Close =>
      Incident(r.(state := Closed, closedAt := Some(now), nextEscalationAt := None), Then(i.log, now, ClosedEvent))
    case Reopen =>
      var timers := TimersFrom(env, r.level, now, None, None);
      Incident(r.(state := Open, acknowledgedAt := None, resolvedAt := None, closedAt := None,
                  ackDueAt := Some(timers.ackDueAt), nextEscalationAt := Some(timers.nextEscalationAt)),
               Then(i.log, now, ReopenedEvent(timers.ackDueAt, timers.nextEscalationAt)))
    case AddNote(text) => Incident(r, Then(i.log, now, NoteEvent(text)))
    case UpdatePostmortem(status, edits) =>
      var r' := if status.None? then r
                else r.(postmortem := status.value,
                        publishedAt := if status.value == Published then Some(now) else None);
      Incident(r'.(texts := Edited(r'.texts, edits)), Then(i.log, now, PostmortemEvent(status, edits)))
  }

  /** The event tells what was asked for. */
  predicate Records(action: Action, e: Event) {
    match action
    case Assign(userId, email) => e == AssignedEvent(userId, email)
    case Acknowledge => e.AcknowledgedEvent?
    case Resolve => e.ResolvedEvent?
    case Close => e.ClosedEvent?
    case Reopen => e.ReopenedEvent?
    case AddNote(text) => e == NoteEvent(text)
    case UpdatePostmortem(status, edits) => e == PostmortemEvent(status, edits)
  }

  /** Every operation is logged once, as what it is, and keeps the level of the incident and what the
      sweep has recorded; a note changes nothing else. */
  lemma OperationIsLogged(env: Environment, i: Incident, action: Action, now: int)
    ensures var after := Perform(env, i, action, now);
            && after.log.Then? && after.log.past == i.log && after.log.at == now && Records(action, after.log.last)
            && after.row.level == i.row.level && after.row.escalatedAt == i.row.escalatedAt
            && after.row.escalationCount == i.row.escalationCount
            && (action.AddNote? ==> after.row == i.row)
  {
  }

  /** The log of a new incident: its creation, then its assignee and its note, if there are any. */
  lemma CreationIsLogged(env: Environment, level: Level, now: int, ack: Option<int>, escalation: Option<int>,
                         userId: Option<string>, email: Option<string>, note: Option<string>)
    ensures var i := NewIncident(env, level, now, ack, escalation, userId, email, note);
            var ackAt := now + 60_000 * AckMinutes(env, level, ack);
            var nextAt := ackAt + 60_000 * EscalationMinutes(env, level, escalation);
            var created := Then(NoEvents, now, CreatedEvent(ackAt, nextAt));
            var unassigned := userId == None && email == None;
            var opening := if unassigned then created else Then(created, now, AssignedEvent(userId, email));
            i.log == (if note == None then opening else Then(opening, now, NoteEvent(note.value)))
  {
    TimersAreExact(env, level, now, ack, escalation, escalation);
  }

  /** The write of the sweep. It trusts the count that was read, and does not look at the row again. */
  function Escalate(env: Environment, i: Incident, seenCount: int, now: int): Incident {
    var nextAt := AddMinutes(now, PolicyFor(env, i.row.level).escalationMinutes);
    Incident(i.row.(escalatedAt := Some(now), escalationCount := seenCount + 1, nextEscalationAt := Some(nextAt)),
             Then(i.log, now, EscalatedEvent(seenCount + 1, nextAt)))
  }

  /** The filter of the sweep. */
  predicate Due(r: Row, now: int) {
    && r.state == Open
    && (if r.nextEscalationAt.Some? then r.nextEscalationAt.value <= now
        else r.ackDueAt.Some? && r.ackDueAt.value <= now)
  }

  // ---------------------------------------------------------------- what the log says

  function StateOf(log: Log): State {
    match log
    case NoEvents => Open
    case Then(past, _, e) =>
      match e
      case CreatedEvent(_, _) => Open
      case AcknowledgedEvent => Acknowledged
      case ResolvedEvent(_) => Resolved
      case ClosedEvent => Closed
      case ReopenedEvent(_, _) => Open
      case _ => StateOf(past)
  }

  function Escalations(log: Log): nat {
    match log
    case NoEvents => 0
    case Then(past, _, e) => Escalations(past) + (if e.EscalatedEvent? then 1 else 0)
  }

  /** When the incident may be escalated next, going by the log alone. */
  function DueOf(log: Log): Option<int> {
    match log
    case NoEvents => None
    case Then(past, _, e) =>
      match e
      case CreatedEvent(_, nextAt) => Some(nextAt)
      case ReopenedEvent(_, nextAt) => Some(nextAt)
      case EscalatedEvent(_, nextAt) => Some(nextAt)
      case AcknowledgedEvent => None
      case ResolvedEvent(_) => None
      case ClosedEvent => None
      case _ => DueOf(past)
  }

  /** The instant of the last event of a kind since the incident was last opened. */
  function LastSinceOpening(log: Log, kind: Event -> bool): Option<int> {
    match log
    case NoEvents => None
    case Then(past, at, e) =>
      if e.CreatedEvent? || e.ReopenedEvent? then None
      else if kind(e) then Some(at)
      else LastSinceOpening(past, kind)
  }

  /** The status last given to the postmortem; resolving an incident starts one. */
  function PostmortemOf(log: Log): PostmortemStatus {
    match log
    case NoEvents => NotStarted
    case Then(past, _, e) =>
      match e
      case ResolvedEvent(_) => if PostmortemOf(past) == NotStarted then Draft else PostmortemOf(past)
      case PostmortemEvent(Some(status), _) => status
      case _ => PostmortemOf(past)
  }

  /** What was last supplied for one of the texts. */
  function LastText(log: Log, field: Edits -> Option<Option<string>>): Option<string> {
    match log
    case NoEvents => None
    case Then(past, _, e) =>
      if e.PostmortemEvent? && field(e.edits).Some? then field(e.edits).value else LastText(past, field)
  }

  const SUMMARY := (e: Edits) => e.summary
  const IMPACT := (e: Edits) => e.impact
  const ROOT_CAUSE := (e: Edits) => e.rootCause
  const ACTION_ITEMS := (e: Edits) => e.actionItems

  function TextsOf(log: Log): Texts {
    Texts(LastText(log, SUMMARY), LastText(log, IMPACT), LastText(log, ROOT_CAUSE), LastText(log, ACTION_ITEMS))
  }

  /** When the acknowledgement is due, going by the log alone. */
  function AckDueOf(log: Log): Option<int> {
    match log
    case NoEvents => None
    case Then(past, _, e) =>
      match e
      case CreatedEvent(ackAt, _) => Some(ackAt)
      case ReopenedEvent(ackAt, _) => Some(ackAt)
      case _ => AckDueOf(past)
  }

  /** The last assignee, by id and by address. */
  function AssigneeOf(log: Log): (Option<string>, Option<string>) {
    match log
    case NoEvents => (None, None)
    case Then(past, _, e) => if e.AssignedEvent? then (e.userId, e.email) else AssigneeOf(past)
  }

  function LastEscalation(log: Log): Option<int> {
    match log
    case NoEvents => None
    case Then(past, at, e) => if e.EscalatedEvent? then Some(at) else LastEscalation(past)
  }

  /** The instant at which the postmortem was given the status it has, if that is published. */
  function PublicationOf(log: Log): Option<int> {
    match log
    case NoEvents => None
    case Then(past, at, e) =>
      if e.PostmortemEvent? && e.status.Some? then if e.status.value == Published then Some(at) else None
      else PublicationOf(past)
  }

  const ACKNOWLEDGEMENTS := (e: Event) => e.AcknowledgedEvent?
  const RESOLUTIONS := (e: Event) => e.ResolvedEvent?
  const CLOSINGS := (e: Event) => e.ClosedEvent?

  // ---------------------------------------------------------------- invariants

  /** What holds of every incident whatever the sweep does. */
  ghost predicate LifeOk(i: Incident) {
    var r := i.row;
    && r.state == StateOf(i.log)
    && r.acknowledgedAt == LastSinceOpening(i.log, ACKNOWLEDGEMENTS)
    && r.resolvedAt == LastSinceOpening(i.log, RESOLUTIONS)
    && r.closedAt == LastSinceOpening(i.log, CLOSINGS)
    && r.postmortem == PostmortemOf(i.log) && r.texts == TextsOf(i.log)
    && (r.state == Open ==> r.acknowledgedAt == None)
    && (r.state == Acknowledged ==> r.acknowledgedAt.Some?)
    && (r.resolvedAt.Some? <==> r.state == Resolved || r.state == Closed)
    && (r.closedAt.Some? <==> r.state == Closed)
    && r.publishedAt == PublicationOf(i.log) && (r.publishedAt.Some? <==> r.postmortem == Published)
    && r.ackDueAt == AckDueOf(i.log) && r.ackDueAt.Some?
    && r.escalatedAt == LastEscalation(i.log)
    && (r.assigneeUserId, r.assigneeEmail) == AssigneeOf(i.log)
  }

  /** What holds besides when every sweep writes to the row it read. */
  predicate TimersOk(i: Incident) {
    && i.row.escalationCount == Escalations(i.log)
    && i.row.nextEscalationAt == DueOf(i.log)
    && (i.row.nextEscalationAt.Some? <==> i.row.state == Open)
  }

  /** Every escalation in the log hit an open incident, was due, and carries the next number. */
  predicate EscalationsJustified(log: Log) {
    match log
    case NoEvents => true
    case Then(past, at, e) =>
      && EscalationsJustified(past)
      && (e.EscalatedEvent? ==>
            StateOf(past) == Open && e.number == Escalations(past) + 1 && DueOf(past).Some? && DueOf(past).value <= at)
  }

  ghost predicate Ok(i: Incident) { LifeOk(i) && TimersOk(i) && EscalationsJustified(i.log) }

  /** The sweep writes to the row as it read it: still open, with the same count, and still due. */
  predicate Timely(i: Incident, seenCount: int, now: int) {
    Due(i.row, now) && i.row.escalationCount == seenCount
  }

  lemma CreatedOk(env: Environment, level: Level, now: int, ack: Option<int>, escalation: Option<int>,
                  userId: Option<string>, email: Option<string>, note: Option<string>)
    ensures Ok(NewIncident(env, level, now, ack, escalation, userId, email, note))
  {
    var i := NewIncident(env, level, now, ack, escalation, userId, email, note);
    var unassigned := i.row.(assigneeUserId := None, assigneeEmail := None);
    var opening := CreatedEvent(i.row.ackDueAt.value, i.row.nextEscalationAt.value);
    var created := Incident(unassigned, Then(NoEvents, now, opening));
    CreationIsOk(created, now);
    var withAssignee := if userId.Some? || email.Some?
                    then Incident(i.row, Then(created.log, now, AssignedEvent(userId, email))) else created;
    if userId.Some? || email.Some? { AssignmentKeepsOk(created, userId, email, now); }
    if note.Some? { NoteKeepsOk(withAssignee, note.value, now); }
  }

  /** A new incident, before anything else is recorded of it. */
  lemma CreationIsOk(i: Incident, now: int)
    requires i.row.ackDueAt.Some? && i.row.nextEscalationAt.Some?
    requires i.row == Row(i.row.level, Open, None, None, i.row.ackDueAt, i.row.nextEscalationAt, None, 0,
                          None, None, None, NotStarted, None, Texts(None, None, None, None))
    requires i.log == Then(NoEvents, now, CreatedEvent(i.row.ackDueAt.value, i.row.nextEscalationAt.value))
    ensures Ok(i)
  {
    assert PostmortemOf(i.log) == PostmortemOf(NoEvents) == NotStarted;
    assert TextsOf(i.log) == TextsOf(NoEvents) == i.row.texts;
    assert PublicationOf(i.log) == PublicationOf(NoEvents) == None;
    assert LastEscalation(i.log) == LastEscalation(NoEvents) == None;
    assert AssigneeOf(i.log) == AssigneeOf(NoEvents) == (None, None);
  }

  /** Notes are on record without bearing on the life cycle, assignments bear on the assignee only. */
  lemma NoteKeepsOk(i: Incident, text: string, now: int)
    requires Ok(i)
    ensures Ok(Incident(i.row, Then(i.log, now, NoteEvent(text))))
  {
  }

  lemma AssignmentKeepsOk(i: Incident, userId: Option<string>, email: Option<string>, now: int)
    requires Ok(i)
    ensures Ok(Incident(i.row.(assigneeUserId := userId, assigneeEmail := email),
                        Then(i.log, now, AssignedEvent(userId, email))))
  {
  }

  lemma PerformKeepsLife(env: Environment, i: Incident, action: Action, now: int)
    requires LifeOk(i) && CanRun(i.row.state, action)
    ensures LifeOk(Perform(env, i, action, now))
  {
  }

  lemma PerformKeepsOk(env: Environment, i: Incident, action: Action, now: int)
    requires Ok(i) && CanRun(i.row.state, action)
    ensures Ok(Perform(env, i, action, now))
  {
    PerformKeepsLife(env, i, action, now);
  }

  lemma EscalateKeepsLife(env: Environment, i: Incident, seenCount: int, now: int)
    requires LifeOk(i)
    ensures LifeOk(Escalate(env, i, seenCount, now))
  {
  }

  /** The write of a sweep keeps the invariant exactly when the row is still what was read. */
  lemma EscalateKeepsOkExactlyWhenTimely(env: Environment, i: Incident, seenCount: int, now: int)
    requires Ok(i)
    ensures Ok(Escalate(env, i, seenCount, now)) <==> Timely(i, seenCount, now)
  {
    EscalateKeepsLife(env, i, seenCount, now);
  }

  /** Two sweeps that read the same count both escalate, and one of the two is not counted. */
  lemma OverlappingSweepsLoseOne(env: Environment, i: Incident, now: int, later: int)
    requires Ok(i) && Due(i.row, now) && now <= later
    ensures var seen := i.row.escalationCount;
            var once := Escalate(env, i, seen, now);
            var twice := Escalate(env, once, seen, later);
            && twice.row.escalationCount == seen + 1
            && Escalations(twice.log) == seen + 2 && !EscalationsJustified(twice.log)
  {
    EscalateKeepsOkExactlyWhenTimely(env, i, i.row.escalationCount, now);
  }

  // ---------------------------------------------------------------- whole runs

  /** found: the workflow exists, and so does the host if one is named. */
  datatype Step =
    | Create(level: Level, now: int, ack: Option<int>, escalation: Option<int>,
             userId: Option<string>, email: Option<string>, note: Option<string>, found: bool)
    | Act(id: nat, action: Action, now: int)
    | SweepWrite(id: nat, seenCount: int, now: int)

  /** 400, 404 and 409 */
  datatype Refusal = BadRequest | NotFound | Conflict

  /** The request asks for nothing: no assignee, or no postmortem field. */
  predicate AsksForNothing(action: Action) {
    action == Assign(None, None) || action == UpdatePostmortem(None, NO_EDITS)
  }

  function RefusalOf(incidents: seq<Incident>, id: nat, action: Action): Option<Refusal> {
    if AsksForNothing(action) then Some(BadRequest)
    else if id >= |incidents| then Some(NotFound)
    else if !CanRun(incidents[id].row.state, action) then Some(Conflict)
    else None
  }

  /** A request is refused for the first of three reasons that holds: it asks for nothing, it names no
      incident, or the incident's state forbids it. */
  lemma RefusalIsExact(incidents: seq<Incident>, id: nat, action: Action)
    ensures var empty := (action.Assign? && action.userId == None && action.email == None)
                         || (action.UpdatePostmortem? && action.status == None && action.edits == NO_EDITS);
            RefusalOf(incidents, id, action) ==
              if empty then Some(BadRequest)
              else if id >= |incidents| then Some(NotFound)
              else if !Possible(incidents[id].row.state, action) then Some(Conflict)
              else None
  {
    if id < |incidents| { CanRunWhatIsPossible(incidents[id].row.state, action); }
  }

  function Apply(env: Environment, incidents: seq<Incident>, step: Step): seq<Incident> {
    match step
    case Create(level, now, ack, escalation, userId, email, note, found) =>
      if !found then incidents
      else incidents + [NewIncident(env, level, now, ack, escalation, userId, email, note)]
    case Act(id, action, now) =>
      if RefusalOf(incidents, id, action).Some? then incidents
      else incidents[id := Perform(env, incidents[id], action, now)]
    case SweepWrite(id, seenCount, now) =>
      if id >= |incidents| then incidents else incidents[id := Escalate(env, incidents[id], seenCount, now)]
  }

  function Play(env: Environment, steps: seq<Step>): seq<Incident>
    decreases |steps|
  {
    if steps == [] then [] else Apply(env, Play(env, steps[..|steps| - 1]), steps[|steps| - 1])
  }

  /** Every write of a sweep met the row as it was read. */
  predicate TimelyRun(env: Environment, steps: seq<Step>)
    decreases |steps|
  {
    steps == []
    || (var before := Play(env, steps[..|steps| - 1]);
        var step := steps[|steps| - 1];
        && TimelyRun(env, steps[..|steps| - 1])
        && (step.SweepWrite? && step.id < |before| ==> Timely(before[step.id], step.seenCount, step.now)))
  }

  /** Operations and sweeps in any interleaving, however stale the reads: the state and its
      timestamps are always those of the event log. */
  lemma {:induction false} LifeFollowsLog(env: Environment, steps: seq<Step>, id: nat)
    requires id < |Play(env, steps)|
    ensures LifeOk(Play(env, steps)[id])
    decreases |steps|
  {
    var earlier := steps[..|steps| - 1];
    var before := Play(env, earlier);
    if id < |before| { LifeFollowsLog(env, earlier, id); }
    match steps[|steps| - 1]
    case Create(level, now, ack, escalation, userId, email, note, _) =>
      CreatedOk(env, level, now, ack, escalation, userId, email, note);
    case Act(i, action, now) =>
      if i == id && RefusalOf(before, id, action).None? { PerformKeepsLife(env, before[id], action, now); }
    case SweepWrite(i, seenCount, now) =>
      if i == id { EscalateKeepsLife(env, before[id], seenCount, now); }
  }

  ghost predicate AllOk(incidents: seq<Incident>) {
    forall id | 0 <= id < |incidents| :: Ok(incidents[id])
  }

  predicate AllJustified(incidents: seq<Incident>) {
    forall id | 0 <= id < |incidents| :: EscalationsJustified(incidents[id].log)
  }

  lemma StepKeepsOk(env: Environment, before: seq<Incident>, step: Step)
    requires AllOk(before)
    requires step.SweepWrite? && step.id < |before| ==> Timely(before[step.id], step.seenCount, step.now)
    ensures AllOk(Apply(env, before, step))
  {
    match step
    case Create(level, now, ack, escalation, userId, email, note, _) =>
      CreatedOk(env, level, now, ack, escalation, userId, email, note);
    case Act(id, action, now) =>
      if RefusalOf(before, id, action).None? { PerformKeepsOk(env, before[id], action, now); }
    case SweepWrite(id, seenCount, now) =>
      if id < |before| { EscalateKeepsOkExactlyWhenTimely(env, before[id], seenCount, now); }
  }

  /** Justification, once lost, stays lost. */
  lemma JustifiedBefore(env: Environment, before: seq<Incident>, step: Step)
    requires AllJustified(Apply(env, before, step))
    ensures AllJustified(before)
  {
    var after := Apply(env, before, step);
    forall id | 0 <= id < |before| ensures EscalationsJustified(before[id].log) {
      assert EscalationsJustified(after[id].log);
    }
  }

  /** The counts, the timers and the numbering of escalations agree with the log, and no escalation
      came early or hit an incident that was not open, exactly on the runs in which every write of
      a sweep met the row as it was read. */
  lemma {:induction false} CountsAndTimersFollowLogExactlyWhenTimely(env: Environment, steps: seq<Step>)
    ensures TimelyRun(env, steps) <==> AllJustified(Play(env, steps))
    ensures TimelyRun(env, steps) <==> AllOk(Play(env, steps))
    decreases |steps|
  {
    if steps != [] {
      var earlier, step := steps[..|steps| - 1], steps[|steps| - 1];
      var before := Play(env, earlier);
      var after := Play(env, steps);
      CountsAndTimersFollowLogExactlyWhenTimely(env, earlier);
      if TimelyRun(env, steps) { StepKeepsOk(env, before, step); }
      if AllOk(after) { assert AllJustified(after); }
      if AllJustified(after) {
        JustifiedBefore(env, before, step);
        if step.SweepWrite? && step.id < |before| {
          assert after[step.id] == Escalate(env, before[step.id], step.seenCount, step.now);
          assert EscalationsJustified(after[step.id].log);
          JustifiedMeansTimely(env, before[step.id], step.seenCount, step.now);
        }
      }
    }
  }

  lemma JustifiedMeansTimely(env: Environment, i: Incident, seenCount: int, now: int)
    requires Ok(i) && EscalationsJustified(Escalate(env, i, seenCount, now).log)
    ensures Timely(i, seenCount, now)
  {
  }

  // ---------------------------------------------------------------- spacing

  function NowOf(step: Step): int { step.now }

  predicate ClockRuns(steps: seq<Step>) {
    forall i, j | 0 <= i < j < |steps| :: NowOf(steps[i]) <= NowOf(steps[j])
  }

  function Interval(env: Environment, level: Level): int {
    60_000 * PolicyFor(env, level).escalationMinutes
  }

  /** The log is in time order, opens once, and every timer it sets is at least the interval away. */
  predicate Timed(env: Environment, level: Level, log: Log) {
    match log
    case NoEvents => true
    case Then(past, at, e) =>
      && Timed(env, level, past)
      && (past.Then? ==> past.at <= at)
      && (e.CreatedEvent? ==> past.NoEvents?)
      && (e.ReopenedEvent? ==> e.nextAt >= at + Interval(env, level))
      && (e.EscalatedEvent? ==> e.nextAt == at + Interval(env, level))
  }

  lemma {:induction false} DueAfterEscalation(env: Environment, level: Level, log: Log)
    requires Timed(env, level, log) && LastEscalation(log).Some?
    ensures LastEscalation(log).value <= log.at
    ensures DueOf(log).Some? ==> DueOf(log).value >= LastEscalation(log).value + Interval(env, level)
  {
    if !log.last.EscalatedEvent? { DueAfterEscalation(env, level, log.past); }
  }

  lemma {:induction false} RunsAreTimed(env: Environment, steps: seq<Step>, id: nat)
    requires ClockRuns(steps) && id < |Play(env, steps)|
    ensures var i := Play(env, steps)[id];
            && Timed(env, i.row.level, i.log) && i.log.Then?
            && steps != [] && i.log.at <= NowOf(steps[|steps| - 1])
    decreases |steps|
  {
    var earlier, step := steps[..|steps| - 1], steps[|steps| - 1];
    var before := Play(env, earlier);
    if id < |before| {
      assert ClockRuns(earlier);
      RunsAreTimed(env, earlier, id);
      assert NowOf(steps[|steps| - 2]) <= NowOf(step);
      OneStepIsTimed(env, before, step, id);
    } else {
      NewIsTimed(env, step.level, step.now, step.ack, step.escalation, step.userId, step.email, step.note);
    }
  }

  lemma OneStepIsTimed(env: Environment, before: seq<Incident>, step: Step, id: nat)
    requires id < |before| && Timed(env, before[id].row.level, before[id].log)
    requires before[id].log.Then? && before[id].log.at <= NowOf(step)
    ensures var i := Apply(env, before, step)[id];
            Timed(env, i.row.level, i.log) && i.log.Then? && i.log.at <= NowOf(step)
  {
  }

  lemma NewIsTimed(env: Environment, level: Level, now: int, ack: Option<int>, escalation: Option<int>,
                   userId: Option<string>, email: Option<string>, note: Option<string>)
    ensures var i := NewIncident(env, level, now, ack, escalation, userId, email, note);
            Timed(env, level, i.log) && i.log.Then? && i.log.at == now
  {
    var i := NewIncident(env, level, now, ack, escalation, userId, email, note);
    assert Timed(env, level, Then(NoEvents, now, CreatedEvent(i.row.ackDueAt.value, i.row.nextEscalationAt.value)));
  }

  /** Every event was possible in the state the log had reached, and every timer in it was set as it
      should be. */
  predicate Lawful(env: Environment, level: Level, log: Log) {
    match log
    case NoEvents => true
    case Then(past, at, e) =>
      && Lawful(env, level, past) && (e.CreatedEvent? <==> past.NoEvents?)
      && match e
         case CreatedEvent(ackAt, nextAt) => at < ackAt < nextAt
         case AssignedEvent(userId, email) => StateOf(past) != Closed && (userId.Some? || email.Some?)
         case NoteEvent(_) => StateOf(past) != Closed
         case AcknowledgedEvent => StateOf(past) == Open || StateOf(past) == Acknowledged
         case ResolvedEvent(_) => StateOf(past) != Closed
         case ClosedEvent => StateOf(past) == Resolved || StateOf(past) == Closed
         case ReopenedEvent(ackAt, nextAt) =>
           && StateOf(past) != Open && ackAt == at + 60_000 * AckMinutes(env, level, None)
           && nextAt == ackAt + 60_000 * EscalationMinutes(env, level, None)
         case PostmortemEvent(status, edits) => StateOf(past) != Closed && (status.Some? || edits != NO_EDITS)
         case EscalatedEvent(_, nextAt) => nextAt == at + 60_000 * EscalationMinutes(env, level, None)
  }

  lemma OpensFirst(log: Log)
    requires log.Then? && log.last.CreatedEvent?
    ensures StateOf(log) == Open
  {
  }

  lemma NewIsLawful(env: Environment, level: Level, now: int, ack: Option<int>, escalation: Option<int>,
                    userId: Option<string>, email: Option<string>, note: Option<string>)
    ensures Lawful(env, level, NewIncident(env, level, now, ack, escalation, userId, email, note).log)
  {
    var i := NewIncident(env, level, now, ack, escalation, userId, email, note);
    var created := Then(NoEvents, now, CreatedEvent(i.row.ackDueAt.value, i.row.nextEscalationAt.value));
    assert Lawful(env, level, created);
    OpensFirst(created);
    if userId.Some? || email.Some? {
      var withAssignee := Then(created, now, AssignedEvent(userId, email));
      assert Lawful(env, level, withAssignee);
      assert StateOf(withAssignee) == Open;
    }
  }

  lemma PerformIsLawful(env: Environment, i: Incident, action: Action, now: int)
    requires Lawful(env, i.row.level, i.log) && i.log.Then? && StateOf(i.log) == i.row.state
    requires CanRun(i.row.state, action) && !AsksForNothing(action)
    ensures Lawful(env, i.row.level, Perform(env, i, action, now).log)
  {
    TimersAreExact(env, i.row.level, now, None, None, None);
  }

  /** Whatever the interleaving, no incident ever gets an event that its state forbids, and no timer but
      those of its level. */
  lemma {:induction false} LogsAreLawful(env: Environment, steps: seq<Step>, id: nat)
    requires id < |Play(env, steps)|
    ensures var i := Play(env, steps)[id]; i.log.Then? && Lawful(env, i.row.level, i.log)
    decreases |steps|
  {
    var earlier := steps[..|steps| - 1];
    var before := Play(env, earlier);
    if id < |before| {
      LogsAreLawful(env, earlier, id);
      LifeFollowsLog(env, earlier, id);
    }
    match steps[|steps| - 1]
    case Create(level, now, ack, escalation, userId, email, note, _) =>
      NewIsLawful(env, level, now, ack, escalation, userId, email, note);
    case Act(i, action, now) =>
      if i == id && RefusalOf(before, id, action).None? { PerformIsLawful(env, before[id], action, now); }
    case SweepWrite(i, seenCount, now) =>
      if i == id { TimersAreExact(env, before[id].row.level, now, None, None, None); }
  }

  /** The event e was logged at this instant, right after past. */
  predicate Logged(log: Log, past: Log, at: int, e: Event) {
    log.Then? && ((log.past == past && log.at == at && log.last == e) || Logged(log.past, past, at, e))
  }

  lemma {:induction false} LoggedSoundly(env: Environment, level: Level, log: Log, past: Log, at: int, e: Event)
    requires EscalationsJustified(log) && Timed(env, level, log) && Logged(log, past, at, e)
    ensures EscalationsJustified(Then(past, at, e)) && Timed(env, level, past)
  {
    if !(log.past == past && log.at == at && log.last == e) { LoggedSoundly(env, level, log.past, past, at, e); }
  }

  /** With a clock that does not run backwards and sweeps that meet the rows they read, an incident
      is escalated only while open, never before it is due, and never sooner than the escalation
      interval after its previous escalation, reopened in between or not. */
  lemma EscalationsAreSpaced(env: Environment, steps: seq<Step>, id: nat, past: Log, at: int, e: Event)
    requires ClockRuns(steps) && TimelyRun(env, steps) && id < |Play(env, steps)|
    requires e.EscalatedEvent? && Logged(Play(env, steps)[id].log, past, at, e)
    ensures StateOf(past) == Open && e.number == Escalations(past) + 1
    ensures DueOf(past).Some? && at >= DueOf(past).value
    ensures LastEscalation(past).Some? ==>
              at >= LastEscalation(past).value
                    + 60_000 * EscalationMinutes(env, Play(env, steps)[id].row.level, None)
  {
    var i := Play(env, steps)[id];
    CountsAndTimersFollowLogExactlyWhenTimely(env, steps);
    RunsAreTimed(env, steps, id);
    LoggedSoundly(env, i.row.level, i.log, past, at, e);
    if LastEscalation(past).Some? { DueAfterEscalation(env, i.row.level, past); }
  }

  // ---------------------------------------------------------------- the sweep

  datatype Target = Target(next: Option<int>, ackDue: Option<int>, id: nat, seenCount: int)

  predicate NoLater(a: Option<int>, b: Option<int>) {
    a.None? || (b.Some? && a.value <= b.value)
  }

  /** The order of the sweep's query: missing timers first, ties in creation order. */
  predicate Sooner(a: Target, b: Target) {
    if a.next != b.next then NoLater(a.next, b.next)
    else if a.ackDue != b.ackDue then NoLater(a.ackDue, b.ackDue)
    else a.id <= b.id
  }

  function TargetOf(incidents: seq<Incident>, id: nat): Target
    requires id < |incidents|
  {
    var r := incidents[id].row;
    Target(r.nextEscalationAt, r.ackDueAt, id, r.escalationCount)
  }

  /** The incidents below n whose row passes the filter, with the columns the queries read. */
  function TargetsWhere(incidents: seq<Incident>, filter: Row -> bool, n: nat): (ts: seq<Target>)
    requires n <= |incidents|
    ensures forall t | t in ts :: t.id < n && filter(incidents[t.id].row) && t == TargetOf(incidents, t.id)
    ensures forall id | 0 <= id < n && filter(incidents[id].row) :: TargetOf(incidents, id) in ts
    ensures Sorting.Distinct(ts)
  {
    if n == 0 then []
    else
      TargetsWhere(incidents, filter, n - 1)
      + (if filter(incidents[n - 1].row) then [TargetOf(incidents, n - 1)] else [])
  }

  function DueTargets(incidents: seq<Incident>, now: int): seq<Target> {
    TargetsWhere(incidents, (r: Row) => Due(r, now), |incidents|)
  }

  function SweepTargets(incidents: seq<Incident>, now: int, limit: int): seq<Target> {
    var due := Sorting.Sort(Sooner, DueTargets(incidents, now));
    due[..Min(ClampInt(limit, 1, 200), |due|)]
  }

  function WriteOf(t: Target, now: int): Step { SweepWrite(t.id, t.seenCount, now) }

  /** The writes of the sweep, one target after the other. */
  function Swept(env: Environment, incidents: seq<Incident>, targets: seq<Target>, n: nat, now: int): seq<Incident>
    requires n <= |targets|
  {
    if n == 0 then incidents
    else
      Apply(env, Swept(env, incidents, targets, n - 1, now), WriteOf(targets[n - 1], now))
  }

  lemma SoonerIsTotal()
    ensures Sorting.TotalPreorder(Sooner)
  {
  }

  lemma TargetsAreDue(incidents: seq<Incident>, now: int, limit: int)
    ensures var ts := SweepTargets(incidents, now, limit);
            && |ts| <= ClampInt(limit, 1, 200) && Sorting.Distinct(ts)
            && (forall t | t in ts ::
                  t.id < |incidents| && Due(incidents[t.id].row, now) && t == TargetOf(incidents, t.id))
  {
    var given := DueTargets(incidents, now);
    var due := Sorting.Sort(Sooner, given);
    var ts := SweepTargets(incidents, now, limit);
    SoonerIsTotal();
    Sorting.SortKeepsElements(Sooner, given);
    forall t | t in ts ensures t in given { assert t in due; }
  }

  lemma LeftOutIsLater(due: seq<Target>, m: nat, t: Target, u: Target)
    requires m <= |due| && Sorting.Sorted(Sooner, due) && u in due && u !in due[..m]
    ensures m < |due|
    ensures t in due[..m] ==> Sooner(t, u)
  {
    var k :| 0 <= k < |due| && due[k] == u;
    assert k >= m by { assert forall i | 0 <= i < m :: due[..m][i] == due[i]; }
    if t in due[..m] {
      var j :| 0 <= j < m && due[..m][j] == t;
      assert Sooner(due[j], due[k]);
    }
  }

  /** What the limit leaves out is no sooner than anything taken. */
  lemma TargetsAreSoonest(incidents: seq<Incident>, now: int, limit: int, id: nat, t: Target)
    requires id < |incidents| && Due(incidents[id].row, now)
    requires TargetOf(incidents, id) !in SweepTargets(incidents, now, limit)
    ensures |SweepTargets(incidents, now, limit)| == ClampInt(limit, 1, 200)
    ensures t in SweepTargets(incidents, now, limit) ==> Sooner(t, TargetOf(incidents, id))
  {
    var given := DueTargets(incidents, now);
    var due := Sorting.Sort(Sooner, given);
    SoonerIsTotal();
    Sorting.SortSorts(Sooner, given);
    Sorting.SortElements(Sooner, given);
    assert TargetOf(incidents, id) in given;
    LeftOutIsLater(due, |SweepTargets(incidents, now, limit)|, t, TargetOf(incidents, id));
  }

  ghost predicate AreDue(incidents: seq<Incident>, targets: seq<Target>, now: int) {
    && Sorting.Distinct(targets)
    && forall t | t in targets :: t.id < |incidents| && Due(incidents[t.id].row, now) && t == TargetOf(incidents, t.id)
  }

  /** The first n targets have been escalated, each once, and nothing else has changed. */
  ghost predicate SweptTo(env: Environment, incidents: seq<Incident>, targets: seq<Target>, n: nat, now: int,
                          after: seq<Incident>)
    requires n <= |targets|
  {
    && AllOk(after) && |after| == |incidents|
    && forall id | 0 <= id < |incidents| ::
         after[id] == if TargetOf(incidents, id) in targets[..n]
                      then Escalate(env, incidents[id], incidents[id].row.escalationCount, now)
                      else incidents[id]
  }

  lemma OneMoreTarget(env: Environment, incidents: seq<Incident>, targets: seq<Target>, n: nat, now: int,
                      before: seq<Incident>, after: seq<Incident>)
    requires 0 < n <= |targets| && AreDue(incidents, targets, now)
    requires SweptTo(env, incidents, targets, n - 1, now, before)
    requires after == Apply(env, before, WriteOf(targets[n - 1], now))
    ensures SweptTo(env, incidents, targets, n, now, after)
  {
    var t := targets[n - 1];
    assert t in targets;
    assert t !in targets[..n - 1];
    assert before[t.id] == incidents[t.id];
    StepKeepsOk(env, before, SweepWrite(t.id, t.seenCount, now));
    assert targets[..n] == targets[..n - 1] + [t];
  }

  /** An uninterrupted sweep escalates exactly its targets, each once, and every write meets its row
      as it was read. */
  lemma {:induction false} SweepIsTimely(env: Environment, incidents: seq<Incident>, targets: seq<Target>, n: nat,
                                         now: int)
    requires n <= |targets| && AllOk(incidents) && AreDue(incidents, targets, now)
    ensures SweptTo(env, incidents, targets, n, now, Swept(env, incidents, targets, n, now))
  {
    if n > 0 {
      SweepIsTimely(env, incidents, targets, n - 1, now);
      OneMoreTarget(env, incidents, targets, n, now, Swept(env, incidents, targets, n - 1, now),
                    Swept(env, incidents, targets, n, now));
    }
  }

  /** The earlier timer goes first, then the earlier acknowledgement, then the older incident. */
  predicate GoesFirst(incidents: seq<Incident>, i: nat, j: nat)
    requires i < |incidents| && j < |incidents|
  {
    var a, b := incidents[i].row, incidents[j].row;
    && a.nextEscalationAt.Some? && b.nextEscalationAt.Some? && a.ackDueAt.Some? && b.ackDueAt.Some?
    && if a.nextEscalationAt != b.nextEscalationAt then a.nextEscalationAt.value < b.nextEscalationAt.value
       else if a.ackDueAt != b.ackDueAt then a.ackDueAt.value < b.ackDueAt.value
       else i <= j
  }

  lemma SoonerGoesFirst(incidents: seq<Incident>, i: nat, j: nat, now: int)
    requires i < |incidents| && j < |incidents| && Ok(incidents[i]) && Ok(incidents[j])
    requires Due(incidents[i].row, now) && Due(incidents[j].row, now)
    requires Sooner(TargetOf(incidents, i), TargetOf(incidents, j))
    ensures GoesFirst(incidents, i, j)
  {
    DueGoesByTheTimer(incidents[i], now);
    DueGoesByTheTimer(incidents[j], now);
  }

  /** The sweep takes its targets in this order. */
  lemma SweepGoesInOrder(incidents: seq<Incident>, now: int, limit: int, j: nat, k: nat)
    requires AllOk(incidents) && j < k < |SweepTargets(incidents, now, limit)|
    ensures var targets := SweepTargets(incidents, now, limit);
            && targets[j].id < |incidents| && targets[k].id < |incidents|
            && GoesFirst(incidents, targets[j].id, targets[k].id)
  {
    var targets := SweepTargets(incidents, now, limit);
    TargetsAreDue(incidents, now, limit);
    SoonerIsTotal();
    Sorting.SortSorts(Sooner, DueTargets(incidents, now));
    assert targets[j] in targets && targets[k] in targets;
    SoonerGoesFirst(incidents, targets[j].id, targets[k].id, now);
  }

  /** After an uninterrupted sweep nothing it had room for is due any more, and what it had to leave
      comes after what it took. */
  lemma SweepTakesTheSoonest(env: Environment, incidents: seq<Incident>, now: int, limit: int, id: nat)
    requires AllOk(incidents) && id < |incidents|
    ensures var targets := SweepTargets(incidents, now, limit);
            var after := Swept(env, incidents, targets, |targets|, now);
            && |after| == |incidents| && AllOk(after)
            && Escalations(after[id].log)
                 == Escalations(incidents[id].log) + (if TargetOf(incidents, id) in targets then 1 else 0)
            && (TargetOf(incidents, id) in targets ==> Due(incidents[id].row, now) && !Due(after[id].row, now))
            && (Due(after[id].row, now) ==>
                  && |targets| == Max(1, Min(limit, 200))
                  && forall t | t in targets :: t.id < |incidents| && GoesFirst(incidents, t.id, id))
  {
    var targets := SweepTargets(incidents, now, limit);
    TargetsAreDue(incidents, now, limit);
    SweepIsTimely(env, incidents, targets, |targets|, now);
    assert targets[..|targets|] == targets;
    var after := Swept(env, incidents, targets, |targets|, now);
    if Due(after[id].row, now) {
      TargetsAreSoonest(incidents, now, limit, id, TargetOf(incidents, id));
      forall t | t in targets ensures t.id < |incidents| && GoesFirst(incidents, t.id, id) {
        TargetsAreSoonest(incidents, now, limit, id, t);
        SoonerGoesFirst(incidents, t.id, id, now);
      }
    }
  }

  /** The second branch of the sweep's filter never decides: an open incident always has its timer. */
  lemma DueGoesByTheTimer(i: Incident, now: int)
    requires Ok(i)
    ensures Due(i.row, now) <==> i.row.nextEscalationAt.Some? && i.row.nextEscalationAt.value <= now
  {
  }

  // ---------------------------------------------------------------- the sweep amid other work

  function PlayFrom(env: Environment, incidents: seq<Incident>, steps: seq<Step>): seq<Incident>
    decreases |steps|
  {
    if steps == [] then incidents
    else Apply(env, PlayFrom(env, incidents, steps[..|steps| - 1]), steps[|steps| - 1])
  }

  /** The writes of the sweep, with whatever others do before each of them. */
  function SweptAmid(env: Environment, incidents: seq<Incident>, targets: seq<Target>, gaps: seq<seq<Step>>,
                     n: nat, now: int): seq<Incident>
    requires n <= |targets| == |gaps|
  {
    if n == 0 then incidents
    else
      Apply(env, PlayFrom(env, SweptAmid(env, incidents, targets, gaps, n - 1, now), gaps[n - 1]),
            WriteOf(targets[n - 1], now))
  }

  /** The same as one history. */
  function SweepSteps(targets: seq<Target>, gaps: seq<seq<Step>>, n: nat, now: int): seq<Step>
    requires n <= |targets| == |gaps|
  {
    if n == 0 then [] else SweepSteps(targets, gaps, n - 1, now) + gaps[n - 1] + [WriteOf(targets[n - 1], now)]
  }

  lemma {:induction false} PlayOn(env: Environment, steps: seq<Step>, more: seq<Step>)
    ensures Play(env, steps + more) == PlayFrom(env, Play(env, steps), more)
    decreases |more|
  {
    if more == [] {
      assert steps + more == steps;
    } else {
      PlayOn(env, steps, more[..|more| - 1]);
      assert (steps + more)[..|steps + more| - 1] == steps + more[..|more| - 1];
    }
  }

  lemma PlayOneMore(env: Environment, steps: seq<Step>, gap: seq<Step>, write: Step)
    ensures Play(env, steps + gap + [write]) == Apply(env, PlayFrom(env, Play(env, steps), gap), write)
  {
    PlayOn(env, steps, gap);
    assert (steps + gap + [write])[..|steps + gap|] == steps + gap;
  }

  lemma Associate<T>(a: seq<T>, b: seq<T>, c: seq<T>, d: seq<T>)
    ensures a + (b + c + d) == a + b + c + d
  {
  }

  lemma {:induction false} SweepIsAHistory(env: Environment, steps: seq<Step>, targets: seq<Target>,
                                           gaps: seq<seq<Step>>, n: nat, now: int)
    requires n <= |targets| == |gaps|
    ensures SweptAmid(env, Play(env, steps), targets, gaps, n, now)
         == Play(env, steps + SweepSteps(targets, gaps, n, now))
  {
    if n == 0 {
      assert steps + [] == steps;
    } else {
      var before := SweepSteps(targets, gaps, n - 1, now);
      var write := WriteOf(targets[n - 1], now);
      SweepIsAHistory(env, steps, targets, gaps, n - 1, now);
      PlayOneMore(env, steps + before, gaps[n - 1], write);
      Associate(steps, before, gaps[n - 1], [write]);
    }
  }

  lemma {:induction false} NoneIsDeleted(env: Environment, incidents: seq<Incident>, steps: seq<Step>)
    ensures |PlayFrom(env, incidents, steps)| >= |incidents|
    decreases |steps|
  {
    if steps != [] { NoneIsDeleted(env, incidents, steps[..|steps| - 1]); }
  }

  /** When nobody acts, it is the uninterrupted sweep. */
  lemma {:induction false} QuietSweep(env: Environment, incidents: seq<Incident>, targets: seq<Target>,
                                      gaps: seq<seq<Step>>, n: nat, now: int)
    requires n <= |targets| == |gaps| && forall i | 0 <= i < |gaps| :: gaps[i] == []
    ensures SweptAmid(env, incidents, targets, gaps, n, now) == Swept(env, incidents, targets, n, now)
  {
    if n > 0 { QuietSweep(env, incidents, targets, gaps, n - 1, now); }
  }

  /** The step may take this incident out of the sweep's hands. */
  predicate Disturbs(step: Step, id: nat) {
    match step
    case Create(_, _, _, _, _, _, _, _) => false
    case SweepWrite(i, _, _) => i == id
    case Act(i, action, _) =>
      i == id && (action.Acknowledge? || action.Resolve? || action.Close? || action.Reopen?)
  }

  ghost predicate LeavesAlone(steps: seq<Step>, id: nat) {
    forall i | 0 <= i < |steps| :: !Disturbs(steps[i], id)
  }

  /** The columns that decide whether a write of the sweep is timely. */
  predicate SameTimers(r: Row, r': Row) {
    r'.state == r.state && r'.nextEscalationAt == r.nextEscalationAt && r'.ackDueAt == r.ackDueAt
    && r'.escalationCount == r.escalationCount
  }

  lemma {:induction false} UndisturbedKeepsTimers(env: Environment, incidents: seq<Incident>, steps: seq<Step>, id: nat)
    requires id < |incidents| && LeavesAlone(steps, id)
    ensures var after := PlayFrom(env, incidents, steps);
            id < |after| && SameTimers(incidents[id].row, after[id].row)
    decreases |steps|
  {
    if steps != [] {
      var before, step := steps[..|steps| - 1], steps[|steps| - 1];
      assert forall i | 0 <= i < |before| :: before[i] == steps[i];
      UndisturbedKeepsTimers(env, incidents, before, id);
      assert !Disturbs(step, id);
    }
  }

  ghost predicate NoSweepWrites(steps: seq<Step>) {
    forall i | 0 <= i < |steps| :: !steps[i].SweepWrite?
  }

  lemma {:induction false} GapKeepsOk(env: Environment, incidents: seq<Incident>, steps: seq<Step>)
    requires AllOk(incidents) && NoSweepWrites(steps)
    ensures AllOk(PlayFrom(env, incidents, steps))
    decreases |steps|
  {
    if steps != [] {
      var before := steps[..|steps| - 1];
      assert forall i | 0 <= i < |before| :: before[i] == steps[i];
      GapKeepsOk(env, incidents, before);
      StepKeepsOk(env, PlayFrom(env, incidents, before), steps[|steps| - 1]);
    }
  }

  /** The gaps hold no other sweep, and leave the targets that are still to be written alone. */
  ghost predicate Peaceful(targets: seq<Target>, gaps: seq<seq<Step>>)
    requires |targets| == |gaps|
  {
    forall i, j | 0 <= i <= j < |gaps| :: NoSweepWrites(gaps[i]) && LeavesAlone(gaps[i], targets[j].id)
  }

  /** One gap and one write of a sweep, seen from a target that is written later. */
  lemma PeacefulWrite(env: Environment, before: seq<Incident>, gap: seq<Step>, t: Target, now: int,
                      later: nat)
    requires AllOk(before) && NoSweepWrites(gap) && LeavesAlone(gap, t.id) && LeavesAlone(gap, later)
    requires t.id < |before| && later < |before| && Timely(before[t.id], t.seenCount, now)
    ensures var after := Apply(env, PlayFrom(env, before, gap), WriteOf(t, now));
            && AllOk(after) && |after| >= |before|
            && (later != t.id ==> SameTimers(before[later].row, after[later].row))
  {
    GapKeepsOk(env, before, gap);
    NoneIsDeleted(env, before, gap);
    UndisturbedKeepsTimers(env, before, gap, t.id);
    UndisturbedKeepsTimers(env, before, gap, later);
    StepKeepsOk(env, PlayFrom(env, before, gap), WriteOf(t, now));
  }

  /** The targets that are still to be written have the timers that were read. */
  ghost predicate Untouched(incidents: seq<Incident>, targets: seq<Target>, n: nat, after: seq<Incident>) {
    && AllOk(after) && |after| >= |incidents|
    && forall k | n <= k < |targets| ::
         targets[k].id < |incidents| && SameTimers(incidents[targets[k].id].row, after[targets[k].id].row)
  }

  lemma {:induction false} PeacefulWrites(env: Environment, incidents: seq<Incident>, targets: seq<Target>,
                                          gaps: seq<seq<Step>>, n: nat, now: int)
    requires AllOk(incidents) && AreDue(incidents, targets, now)
    requires n <= |targets| == |gaps| && Peaceful(targets, gaps)
    ensures Untouched(incidents, targets, n, SweptAmid(env, incidents, targets, gaps, n, now))
  {
    if n == 0 {
      forall k | 0 <= k < |targets| ensures targets[k].id < |incidents| { assert targets[k] in targets; }
    } else {
      PeacefulWrites(env, incidents, targets, gaps, n - 1, now);
      OneMorePeacefulWrite(env, incidents, targets, gaps, n, now, SweptAmid(env, incidents, targets, gaps, n - 1, now),
                           SweptAmid(env, incidents, targets, gaps, n, now));
    }
  }

  lemma OneMorePeacefulWrite(env: Environment, incidents: seq<Incident>, targets: seq<Target>, gaps: seq<seq<Step>>,
                             n: nat, now: int, before: seq<Incident>, after: seq<Incident>)
    requires AreDue(incidents, targets, now) && 0 < n <= |targets| == |gaps| && Peaceful(targets, gaps)
    requires Untouched(incidents, targets, n - 1, before)
    requires after == Apply(env, PlayFrom(env, before, gaps[n - 1]), WriteOf(targets[n - 1], now))
    ensures Untouched(incidents, targets, n, after)
  {
    var t := targets[n - 1];
    assert t in targets;
    OnePeacefulWrite(env, incidents, before, gaps[n - 1], t, t, now);
    forall k | n <= k < |targets|
      ensures targets[k].id < |incidents| && SameTimers(incidents[targets[k].id].row, after[targets[k].id].row)
    {
      assert targets[k] in targets && targets[k] != t;
      OnePeacefulWrite(env, incidents, before, gaps[n - 1], t, targets[k], now);
    }
  }

  lemma OnePeacefulWrite(env: Environment, incidents: seq<Incident>, before: seq<Incident>, gap: seq<Step>,
                         t: Target, u: Target, now: int)
    requires AllOk(before) && |before| >= |incidents|
    requires NoSweepWrites(gap) && LeavesAlone(gap, t.id) && LeavesAlone(gap, u.id)
    requires t.id < |incidents| && t == TargetOf(incidents, t.id) && Due(incidents[t.id].row, now)
    requires u.id < |incidents| && u == TargetOf(incidents, u.id)
    requires SameTimers(incidents[t.id].row, before[t.id].row) && SameTimers(incidents[u.id].row, before[u.id].row)
    ensures var after := Apply(env, PlayFrom(env, before, gap), WriteOf(t, now));
            && AllOk(after) && |after| >= |before|
            && (u != t ==> SameTimers(incidents[u.id].row, after[u.id].row))
  {
    PeacefulWrite(env, before, gap, t, now, u.id);
    SameTargets(incidents, t, u);
  }

  /** A sweep amid other work keeps counts and timers right when nobody acknowledges, resolves, closes
      or reopens a target before its write and no other sweep runs; new incidents, notes, assignments
      and postmortems do no harm. */
  lemma PeacefulSweepKeepsOk(env: Environment, incidents: seq<Incident>, now: int, limit: int,
                             gaps: seq<seq<Step>>)
    requires AllOk(incidents) && |gaps| == |SweepTargets(incidents, now, limit)|
    requires Peaceful(SweepTargets(incidents, now, limit), gaps)
    ensures var targets := SweepTargets(incidents, now, limit);
            AllOk(SweptAmid(env, incidents, targets, gaps, |targets|, now))
  {
    var targets := SweepTargets(incidents, now, limit);
    TargetsAreDue(incidents, now, limit);
    PeacefulWrites(env, incidents, targets, gaps, |targets|, now);
  }

  lemma SameTargets(incidents: seq<Incident>, t: Target, u: Target)
    requires t.id < |incidents| && u.id < |incidents|
    requires t == TargetOf(incidents, t.id) && u == TargetOf(incidents, u.id)
    ensures t.id == u.id ==> t == u
  {
  }

  /** In whatever run a sweep takes part, counts and timers are right afterwards exactly when every
      write of it, and of any other sweep, met its row as it was read. */
  lemma SweepAmidIsHarmlessExactlyWhenTimely(env: Environment, steps: seq<Step>, now: int, limit: int,
                                             gaps: seq<seq<Step>>)
    requires |gaps| == |SweepTargets(Play(env, steps), now, limit)|
    ensures var targets := SweepTargets(Play(env, steps), now, limit);
            AllOk(SweptAmid(env, Play(env, steps), targets, gaps, |targets|, now)) <==>
              TimelyRun(env, steps + SweepSteps(targets, gaps, |targets|, now))
  {
    var targets := SweepTargets(Play(env, steps), now, limit);
    SweepIsAHistory(env, steps, targets, gaps, |targets|, now);
    CountsAndTimersFollowLogExactlyWhenTimely(env, steps + SweepSteps(targets, gaps, |targets|, now));
  }

  const AWAITING := (r: Row) => r.state == Open && (r.nextEscalationAt.Some? || r.ackDueAt.Some?)

  /** The next due instant that the sweep reports. */
  function NextDue(incidents: seq<Incident>): Option<int> {
    var open := Sorting.Sort(Sooner, TargetsWhere(incidents, AWAITING, |incidents|));
    if open == [] then None else if open[0].next.Some? then open[0].next else open[0].ackDue
  }

  lemma FirstIsSoonest(incidents: seq<Incident>, filter: Row -> bool)
    ensures var ts := Sorting.Sort(Sooner, TargetsWhere(incidents, filter, |incidents|));
            && (ts == [] <==> forall id | 0 <= id < |incidents| :: !filter(incidents[id].row))
            && (ts != [] ==> ts[0].id < |incidents| && filter(incidents[ts[0].id].row)
                             && ts[0] == TargetOf(incidents, ts[0].id))
            && (forall id | 0 <= id < |incidents| && filter(incidents[id].row) ::
                  ts != [] && Sooner(ts[0], TargetOf(incidents, id)))
  {
    var given := TargetsWhere(incidents, filter, |incidents|);
    var ts := Sorting.Sort(Sooner, given);
    SoonerIsTotal();
    Sorting.SortSorts(Sooner, given);
    Sorting.SortElements(Sooner, given);
    if ts != [] { assert ts[0] in ts; }
    forall id | 0 <= id < |incidents| && filter(incidents[id].row)
      ensures ts != [] && Sooner(ts[0], TargetOf(incidents, id))
    {
      assert TargetOf(incidents, id) in given;
      var k :| 0 <= k < |ts| && ts[k] == TargetOf(incidents, id);
      assert k > 0 ==> Sooner(ts[0], ts[k]);
    }
  }

  /** The report names the earliest timer of an open incident, and none exactly when none is open. */
  lemma NextDueIsTheSoonest(incidents: seq<Incident>)
    requires AllOk(incidents)
    ensures NextDue(incidents) == None <==> forall id | 0 <= id < |incidents| :: incidents[id].row.state != Open
    ensures NextDue(incidents).Some? ==>
              && (exists id | 0 <= id < |incidents| ::
                    incidents[id].row.state == Open && incidents[id].row.nextEscalationAt == NextDue(incidents))
              && (forall id | 0 <= id < |incidents| && incidents[id].row.state == Open ::
                    incidents[id].row.nextEscalationAt.value >= NextDue(incidents).value)
  {
    FirstIsSoonest(incidents, AWAITING);
    forall id | 0 <= id < |incidents|
      ensures incidents[id].row.state == Open <==> incidents[id].row.nextEscalationAt.Some?
    {
      assert Ok(incidents[id]);
    }
  }

  // ---------------------------------------------------------------- the table

  class IncidentTable {
    var incidents: seq<Incident>

    constructor ()
      ensures incidents == []
    {
      incidents := [];
    }

    /** createIncidentRun */
    method CreateIncidentRun(env: Environment, level: Level, now: int, ackDueMinutes: Option<int>,
                             escalationEveryMinutes: Option<int>, userId: Option<string>, email: Option<string>,
                             initialNote: Option<string>, workflowExists: bool, hostExists: bool)
      returns (id: Option<nat>)
      modifies this
      ensures id == if workflowExists && hostExists then Some(|old(incidents)|) else None
      ensures incidents == Apply(env, old(incidents),
        Create(level, now, ackDueMinutes, escalationEveryMinutes, userId, email, initialNote,
               workflowExists && hostExists))
      ensures id.Some? ==>
                var row := incidents[id.value].row;
                var ackAt := now + 60_000 * AckMinutes(env, level, ackDueMinutes);
                && row.level == level && row.state == Open
                && row.assigneeUserId == userId && row.assigneeEmail == email && row.ackDueAt == Some(ackAt)
                && row.nextEscalationAt == Some(ackAt + 60_000 * EscalationMinutes(env, level, escalationEveryMinutes))
    {
      TimersAreExact(env, level, now, ackDueMinutes, escalationEveryMinutes, None);
      if !workflowExists { return None; }
      var timers := TimersFrom(env, level, now, ackDueMinutes, escalationEveryMinutes);
      if !hostExists { return None; }
      id := Some(|incidents|);
      var row := Row(level, Open, userId, email, Some(timers.ackDueAt), Some(timers.nextEscalationAt), None, 0,
                     None, None, None, NotStarted, None, Texts(None, None, None, None));
      var log := Then(NoEvents, now, CreatedEvent(timers.ackDueAt, timers.nextEscalationAt));
      if userId.Some? || email.Some? { log := Then(log, now, AssignedEvent(userId, email)); }
      if initialNote.Some? { log := Then(log, now, NoteEvent(initialNote.value)); }
      incidents := incidents + [Incident(row, log)];
    }

    /** assignIncidentRun, once the assignee is resolved */
    method AssignIncidentRun(ghost env: Environment, id: nat, userId: Option<string>, email: Option<string>, now: int)
      returns (refusal: Option<Refusal>)
      modifies this
      ensures incidents == Apply(env, old(incidents), Act(id, Assign(userId, email), now))
      ensures refusal == RefusalOf(old(incidents), id, Assign(userId, email))
    {
      refusal := RefusalOf(incidents, id, Assign(userId, email));
      if refusal.Some? { return; }
      var row, log := incidents[id].row, incidents[id].log;
      row := row.(assigneeUserId := userId);
      row := row.(assigneeEmail := email);
      log := Then(log, now, AssignedEvent(userId, email));
      incidents := incidents[id := Incident(row, log)];
    }

    /** acknowledgeIncidentRun */
    method AcknowledgeIncidentRun(ghost env: Environment, id: nat, now: int) returns (refusal: Option<Refusal>)
      modifies this
      ensures incidents == Apply(env, old(incidents), Act(id, Acknowledge, now))
      ensures refusal == RefusalOf(old(incidents), id, Acknowledge)
    {
      refusal := RefusalOf(incidents, id, Acknowledge);
      if refusal.Some? { return; }
      var row, log := incidents[id].row, incidents[id].log;
      row := row.(state := Acknowledged);
      row := row.(acknowledgedAt := Some(now));
      row := row.(nextEscalationAt := None);
      log := Then(log, now, AcknowledgedEvent);
      incidents := incidents[id := Incident(row, log)];
    }

    /** resolveIncidentRun */
    method ResolveIncidentRun(ghost env: Environment, id: nat, now: int) returns (refusal: Option<Refusal>)
      modifies this
      ensures incidents == Apply(env, old(incidents), Act(id, Resolve, now))
      ensures refusal == RefusalOf(old(incidents), id, Resolve)
    {
      refusal := RefusalOf(incidents, id, Resolve);
      if refusal.Some? { return; }
      var row, log := incidents[id].row, incidents[id].log;
      var postmortem := if row.postmortem == NotStarted then Draft else row.postmortem;
      row := row.(state := Resolved);
      row := row.(resolvedAt := Some(now));
      row := row.(nextEscalationAt := None);
      row := row.(postmortem := postmortem);
      log := Then(log, now, ResolvedEvent(postmortem));
      incidents := incidents[id := Incident(row, log)];
    }

    /** closeIncidentRun */
    method CloseIncidentRun(ghost env: Environment, id: nat, now: int) returns (refusal: Option<Refusal>)
      modifies this
      ensures incidents == Apply(env, old(incidents), Act(id, Close, now))
      ensures refusal == RefusalOf(old(incidents), id, Close)
    {
      refusal := RefusalOf(incidents, id, Close);
      if refusal.Some? { return; }
      var row, log := incidents[id].row, incidents[id].log;
      row := row.(state := Closed);
      row := row.(closedAt := Some(now));
      row := row.(nextEscalationAt := None);
      log := Then(log, now, ClosedEvent);
      incidents := incidents[id := Incident(row, log)];
    }

    /** reopenIncidentRun */
    method ReopenIncidentRun(env: Environment, id: nat, now: int) returns (refusal: Option<Refusal>)
      modifies this
      ensures incidents == Apply(env, old(incidents), Act(id, Reopen, now))
      ensures refusal == RefusalOf(old(incidents), id, Reopen)
      ensures refusal.None? ==>
                var row := incidents[id].row;
                var ackAt := now + 60_000 * AckMinutes(env, row.level, None);
                && row.state == Open && row.ackDueAt == Some(ackAt)
                && row.nextEscalationAt == Some(ackAt + 60_000 * EscalationMinutes(env, row.level, None))
    {
      refusal := RefusalOf(incidents, id, Reopen);
      if refusal.Some? { return; }
      var row, log := incidents[id].row, incidents[id].log;
      TimersAreExact(env, row.level, now, None, None, None);
      var timers := TimersFrom(env, row.level, now, None, None);
      row := row.(state := Open);
      row := row.(acknowledgedAt := None, resolvedAt := None, closedAt := None);
      row := row.(ackDueAt := Some(timers.ackDueAt));
      row := row.(nextEscalationAt := Some(timers.nextEscalationAt));
      log := Then(log, now, ReopenedEvent(timers.ackDueAt, timers.nextEscalationAt));
      incidents := incidents[id := Incident(row, log)];
    }

    /** addIncidentNote */
    method AddIncidentNote(ghost env: Environment, id: nat, text: string, now: int) returns (refusal: Option<Refusal>)
      modifies this
      ensures incidents == Apply(env, old(incidents), Act(id, AddNote(text), now))
      ensures refusal == RefusalOf(old(incidents), id, AddNote(text))
    {
      refusal := RefusalOf(incidents, id, AddNote(text));
      if refusal.Some? { return; }
      var row, log := incidents[id].row, incidents[id].log;
      log := Then(log, now, NoteEvent(text));
      incidents := incidents[id := Incident(row, log)];
    }

    /** updateIncidentPostmortem */
    method UpdateIncidentPostmortem(ghost env: Environment, id: nat, status: Option<PostmortemStatus>, edits: Edits,
                                    now: int) returns (refusal: Option<Refusal>)
      modifies this
      ensures incidents == Apply(env, old(incidents), Act(id, UpdatePostmortem(status, edits), now))
      ensures refusal == RefusalOf(old(incidents), id, UpdatePostmortem(status, edits))
    {
      refusal := RefusalOf(incidents, id, UpdatePostmortem(status, edits));
      if refusal.Some? { return; }
      var row, log := incidents[id].row, incidents[id].log;
      if status.Some? {
        row := row.(postmortem := status.value);
        row := row.(publishedAt := if status.value == Published then Some(now) else None);
      }
      var texts := row.texts;
      if edits.summary.Some? { texts := texts.(summary := edits.summary.value); }
      if edits.impact.Some? { texts := texts.(impact := edits.impact.value); }
      if edits.rootCause.Some? { texts := texts.(rootCause := edits.rootCause.value); }
      if edits.actionItems.Some? { texts := texts.(actionItems := edits.actionItems.value); }
      row := row.(texts := texts);
      log := Then(log, now, PostmortemEvent(status, edits));
      incidents := incidents[id := Incident(row, log)];
    }

    /** runIncidentEscalationSweep: one read, then one write for each target, with others acting in
        the gaps, then the report. */
    method RunIncidentEscalationSweep(env: Environment, now: int, limit: int, gaps: seq<seq<Step>>)
      returns (escalatedIds: seq<nat>, nextDueAt: Option<int>)
      requires |gaps| == |SweepTargets(incidents, now, limit)|
      modifies this
      ensures var targets := SweepTargets(old(incidents), now, limit);
              && incidents == SweptAmid(env, old(incidents), targets, gaps, |targets|, now)
              && |escalatedIds| == |targets| && forall n | 0 <= n < |targets| :: escalatedIds[n] == targets[n].id
      ensures nextDueAt == NextDue(incidents)
    {
      ghost var start := incidents;
      var due := SweepTargets(incidents, now, limit);
      TargetsAreDue(start, now, limit);
      escalatedIds := [];
      for n := 0 to |due|
        invariant incidents == SweptAmid(env, start, due, gaps, n, now) && |incidents| >= |start|
        invariant |escalatedIds| == n && forall k | 0 <= k < n :: escalatedIds[k] == due[k].id
      {
        NoneIsDeleted(env, incidents, gaps[n]);
        incidents := PlayFrom(env, incidents, gaps[n]);
        var target := due[n];
        assert target in due;
        EscalateTarget(env, target, now);
        escalatedIds := escalatedIds + [target.id];
      }
      var open := Sorting.Sort(Sooner, TargetsWhere(incidents, AWAITING, |incidents|));
      if |open| == 0 { return escalatedIds, None; }
      nextDueAt := if open[0].next.Some? then open[0].next else open[0].ackDue;
    }

    /** The transaction of the sweep for one target. */
    method EscalateTarget(env: Environment, target: Target, now: int)
      requires target.id < |incidents|
      modifies this
      ensures incidents == Apply(env, old(incidents), SweepWrite(target.id, target.seenCount, now))
    {
      var row, log := incidents[target.id].row, incidents[target.id].log;
      var nextEscalationAt := AddMinutes(now, PolicyFor(env, row.level).escalationMinutes);
      row := row.(escalatedAt := Some(now));
      row := row.(escalationCount := target.seenCount + 1);
      row := row.(nextEscalationAt := Some(nextEscalationAt));
      log := Then(log, now, EscalatedEvent(target.seenCount + 1, nextEscalationAt));
      incidents := incidents[target.id := Incident(row, log)];
    }
  }
}
