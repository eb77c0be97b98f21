/** Statuses, events and rules of the compliance ledger: the entities of internal/domain. */
module Domain {
  datatype Option<+T> = None | Some(value: T)

  datatype Status = Open | Acknowledged | Investigating | Resolved | Escalated | AutoClosed

  datatype Severity = Low | Medium | High | Critical

  datatype EventKind =
    | EvReceived | EvAcknowledged | EvInvestigationStarted | EvNoteAdded
    | EvEscalated | EvResolved | EvAutoClosed

  datatype NotifStatus = NotifPending | NotifSent | NotifFailed | NotifRetrying

  datatype Action = Notify | Escalate | AutoClose

  /** A row of escalation_rules. `severityMatch == None` is the wildcard "*"; `newSeverity`
      is the unvalidated text under action_config.new_severity, if it is a text at all. */
  datatype Rule = Rule(
    id: int, tenant: int, severityMatch: Option<Severity>, triggerAfterHrs: int,
    triggerStatus: Status, action: Action, newSeverity: Option<string>,
    isActive: bool, priority: int)

  /** The allowed moves of the lifecycle. */
  predicate ValidTransition(from: Status, to: Status) {
    match from
    case Open => to == Acknowledged || to == AutoClosed
    case Acknowledged => to == Investigating
    case Investigating => to == Resolved || to == Escalated
    case Escalated => to == Resolved
    case Resolved => false
    case AutoClosed => false
  }

  predicate Closed(s: Status) {
    s == Resolved || s == AutoClosed
  }

  /** Every allowed move climbs this scale, so a life is at most four moves long. */
  function Rank(s: Status): nat {
    match s
    case Open => 0
    case Acknowledged => 1
    case Investigating => 2
    case Escalated => 3
    case Resolved => 4
    case AutoClosed => 4
  }

  /** The status an event says the discrepancy has taken; a note says nothing. */
  function NamedStatus(k: EventKind): Option<Status> {
    match k
    case EvReceived => Some(Open)
    case EvAcknowledged => Some(Acknowledged)
    case EvInvestigationStarted => Some(Investigating)
    case EvNoteAdded => None
    case EvEscalated => Some(Escalated)
    case EvResolved => Some(Resolved)
    case EvAutoClosed => Some(AutoClosed)
  }

  /** The CHECK constraint on discrepancies.severity. */
  function ParseSeverity(s: string): Option<Severity> {
    if s == "low" then Some(Low)
    else if s == "medium" then Some(Medium)
    else if s == "high" then Some(High)
    else if s == "critical" then Some(Critical)
    else None
  }

  predicate ValidResolutionType(s: string) {
    s == "match_found" || s == "false_positive" || s == "manual_adjustment" || s == "write_off"
  }

  predicate ValidTriggerStatus(s: Status) {
    s == Open || s == Acknowledged || s == Investigating
  }

  predicate MatchesSeverity(r: Rule, s: Severity) {
    r.severityMatch == None || r.severityMatch == Some(s)
  }

  const HOUR: int := 3_600_000_000_000

  /** A Go time.Duration is a signed 64-bit count of nanoseconds; products wrap around. */
  function Wrap64(n: int): (w: int)
    ensures -0x8000_0000_0000_0000 <= w < 0x8000_0000_0000_0000 && (n - w) % 0x1_0000_0000_0000_0000 == 0
  {
    (n + 0x8000_0000_0000_0000) % 0x1_0000_0000_0000_0000 - 0x8000_0000_0000_0000
  }

  /** The instant before which a discrepancy must have been created for `r` to select it. */
  function OlderThan(r: Rule, now: int): int {
    now - Wrap64(Wrap64(r.triggerAfterHrs) * HOUR)
  }

  /** For hours that fit a duration, a row is old enough when more than those hours have passed. */
  lemma AgeTest(r: Rule, createdAt: int, now: int)
    requires -2_562_047 <= r.triggerAfterHrs <= 2_562_047
    ensures createdAt < OlderThan(r, now) <==> now - createdAt > r.triggerAfterHrs * 3_600_000_000_000
  {
  }

  /** The texts the columns hold. */
  function StatusName(s: Status): string {
    match s
    case Open => "open"
    case Acknowledged => "acknowledged"
    case Investigating => "investigating"
    case Resolved => "resolved"
    case Escalated => "escalated"
    case AutoClosed => "auto_closed"
  }

  function SeverityName(s: Severity): string {
    match s
    case Low => "low"
    case Medium => "medium"
    case High => "high"
    case Critical => "critical"
  }

  lemma SeverityNamed(name: string, s: Severity)
    ensures ParseSeverity(name) == Some(s) <==> name == SeverityName(s)
  {
  }

  function AtLeastOne(n: int): nat {
    if n < 1 then 1 else n
  }

  lemma EmptyOrNot<T>(s: set<T>)
    ensures s == {} || exists e :: e in s
  {
    assert (forall e :: e !in s) ==> s == {};
  }

  /** Some element of a set: the database's choice where a query has no ORDER BY. */
  method AnyOf<T>(s: set<T>) returns (e: T)
    requires s != {}
    ensures e in s
  {
    EmptyOrNot(s);
    e :| e in s;
  }
}
