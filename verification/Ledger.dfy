/** The database as a value, and what each store call does to it. */
module Ledger {
  import opened Domain

  /** A row of discrepancies: the columns the lifecycle, the engine and ingestion use. */
  datatype Disc = Disc(
    tenant: int, externalId: string, createdAt: int,
    status: Status, severity: Severity, resolvedAt: Option<int>)

  datatype Payload = Plain | ByRule(ruleId: int) | Resolution(resolutionType: string)

  datatype Event = Event(seqNum: nat, disc: int, kind: EventKind, payload: Payload)

  datatype Notice = Notice(rule: int, disc: int, status: NotifStatus, attempts: nat)

  /** The outcome of SendEvent as its caller sees it. */
  datatype SendResult = SendFailed | Replied(skipped: bool)

  /** `lastSeq` is the counter behind sequence_num; `sends` lists the SendEvent calls the
      escalation engine made, as (rule, discrepancy). */
  datatype Tables = Tables(
    discs: map<int, Disc>, events: seq<Event>, lastSeq: nat,
    notices: seq<Notice>, sends: seq<(int, int)>)

  const EMPTY := Tables(map[], [], 0, [], [])

  predicate ExternalTaken(t: Tables, tenant: int, externalId: string) {
    exists d :: d in t.discs && t.discs[d].tenant == tenant && t.discs[d].externalId == externalId
  }

  /** INSERT INTO discrepancies: refused for a used id or a used (tenant, external_id). */
  function Insert(t: Tables, id: int, row: Disc): Tables {
    if id in t.discs || ExternalTaken(t, row.tenant, row.externalId) then t
    else t.(discs := t.discs[id := row])
  }

  /** UPDATE discrepancies SET status, resolved_at: both columns, always together. */
  function SetStatus(t: Tables, id: int, s: Status, at: Option<int>): Tables {
    if id !in t.discs then t
    else t.(discs := t.discs[id := t.discs[id].(status := s, resolvedAt := at)])
  }

  /** UPDATE discrepancies SET severity: refused by the CHECK constraint for an unknown name. */
  function SetSeverity(t: Tables, id: int, name: string): Tables {
    if id !in t.discs || ParseSeverity(name) == None then t
    else t.(discs := t.discs[id := t.discs[id].(severity := ParseSeverity(name).value)])
  }

  /** INSERT INTO ledger_events: numbered by the counter, refused for an unknown discrepancy. */
  function Append(t: Tables, id: int, kind: EventKind, payload: Payload): Tables {
    if id !in t.discs then t
    else t.(events := t.events + [Event(t.lastSeq + 1, id, kind, payload)], lastSeq := t.lastSeq + 1)
  }

  /** INSERT INTO notification_log with status pending and no attempts. */
  function AddNotice(t: Tables, rule: int, id: int): Tables {
    t.(notices := t.notices + [Notice(rule, id, NotifPending, 0)])
  }

  /** UPDATE notification_log SET status, attempts. */
  function SetNotice(t: Tables, n: nat, s: NotifStatus, attempts: nat): Tables {
    if n >= |t.notices| then t
    else t.(notices := t.notices[n := t.notices[n].(status := s, attempts := attempts)])
  }

  /** The log status the engine writes after its one send. */
  function AfterFirstSend(r: SendResult): NotifStatus {
    match r
    case SendFailed => NotifFailed
    case Replied(skipped) => if skipped then NotifPending else NotifSent
  }

  predicate HasEvent(t: Tables, id: int, kind: EventKind) {
    exists i :: 0 <= i < |t.events| && t.events[i].disc == id && t.events[i].kind == kind
  }

  predicate HasNotice(t: Tables, rule: int, id: int) {
    exists i :: 0 <= i < |t.notices| && t.notices[i].rule == rule && t.notices[i].disc == id
  }

  /** The candidate predicate of ListForEscalation. */
  predicate Selects(r: Rule, now: int, row: Disc) {
    && row.tenant == r.tenant
    && row.status == r.triggerStatus
    && row.createdAt < OlderThan(r, now)
    && MatchesSeverity(r, row.severity)
  }

  /** MAX(sequence_num) over the events of one discrepancy, 0 when it has none. */
  function Latest(events: seq<Event>, id: int): nat {
    if events == [] then 0
    else
      var e := events[|events| - 1];
      var m := Latest(events[..|events| - 1], id);
      if e.disc == id && e.seqNum > m then e.seqNum else m
  }

  // ---------------------------------------------------------------- one discrepancy's share

  datatype Entry = Entry(kind: EventKind, payload: Payload)

  /** The events of one discrepancy in order, without their global numbers. */
  function Log(events: seq<Event>, id: int): seq<Entry> {
    if events == [] then []
    else
      var e := events[|events| - 1];
      Log(events[..|events| - 1], id) + (if e.disc == id then [Entry(e.kind, e.payload)] else [])
  }

  /** The statuses an event log names, notes left out. */
  function Named(log: seq<Entry>): seq<Status> {
    if log == [] then []
    else
      var s := NamedStatus(log[|log| - 1].kind);
      Named(log[..|log| - 1]) + (if s.Some? then [s.value] else [])
  }

  lemma LogAppend(events: seq<Event>, e: Event, id: int)
    ensures Log(events + [e], id)
         == Log(events, id) + (if e.disc == id then [Entry(e.kind, e.payload)] else [])
    ensures Latest(events + [e], id)
         == if e.disc == id && e.seqNum > Latest(events, id) then e.seqNum else Latest(events, id)
  {
    assert (events + [e])[..|events|] == events;
  }

  lemma NamedAppend(log: seq<Entry>, e: Entry)
    ensures Named(log + [e])
         == Named(log) + (if NamedStatus(e.kind).Some? then [NamedStatus(e.kind).value] else [])
  {
    assert (log + [e])[..|log|] == log;
  }

  /** An event of some kind is in the table exactly when it is in its discrepancy's log. */
  lemma {:induction false} LogHas(events: seq<Event>, id: int, kind: EventKind)
    ensures (exists i :: 0 <= i < |events| && events[i].disc == id && events[i].kind == kind)
        <==> (exists i :: 0 <= i < |Log(events, id)| && Log(events, id)[i].kind == kind)
  {
    if events != [] {
      var n := |events| - 1;
      var pre, e := events[..n], events[n];
      LogHas(pre, id, kind);
      var lp, l := Log(pre, id), Log(events, id);
      if i :| 0 <= i < |events| && events[i].disc == id && events[i].kind == kind {
        if i < n {
          assert pre[i] == events[i];
          var j :| 0 <= j < |lp| && lp[j].kind == kind;
          assert l[j].kind == kind;
        } else {
          assert l[|l| - 1].kind == kind;
        }
      }
      if j :| 0 <= j < |l| && l[j].kind == kind {
        if j < |lp| {
          assert lp[j].kind == kind;
          var i :| 0 <= i < |pre| && pre[i].disc == id && pre[i].kind == kind;
          assert events[i].kind == kind;
        } else {
          assert events[n].kind == kind;
        }
      }
    }
  }
}
