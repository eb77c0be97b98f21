/**
 The service as a transition system, one store call at a time.

 Actors: any number of ingestion handlers, users (a workflow transaction or a note is one
 step), and one escalation engine that works through a candidate list it read earlier. Every
 store call may be done, refused without effect, or take effect while its caller sees an
 error; actors interleave in every order.
*/
module Machine {
  import opened Domain
  import opened Ledger

  datatype Outcome =
    | Done      // took effect, success reported
    | Refused   // no effect, error reported
    | Lost      // took effect, error reported

  function After(o: Outcome, t: Tables, t': Tables): Tables {
    if o == Refused then t else t'
  }

  // ---------------------------------------------------------------- ingestion handlers

  /** The fields handleMessage requires, as texts; `tenant` is the parsed tenant_id, if it parses.
      `restFits` tells whether the database takes the remaining columns (source system, currency,
      amounts, description, metadata) and the characters of the texts. */
  datatype Envelope = Envelope(
    eventType: string, source: string, tenantId: string, tenant: Option<int>, timestamp: string,
    externalId: string, severity: string, title: string, discrepancyType: string, restFits: bool)

  /** A delivered message: its envelope unless the JSON is malformed, and its delivery count
      unless the metadata cannot be read. */
  datatype Msg = Msg(envelope: Option<Envelope>, delivered: Option<nat>)

  datatype Settlement = Ack | Nak | Term

  const MAX_DELIVERY_ATTEMPTS: nat := 3

  predicate WellFormed(e: Envelope) {
    && e.eventType != "" && e.source != "" && e.tenantId != "" && e.timestamp != ""
    && e.externalId != "" && e.severity != "" && e.title != "" && e.discrepancyType != ""
  }

  /** The column types and CHECK constraints an ingested row must meet. */
  predicate Storable(e: Envelope) {
    && ParseSeverity(e.severity).Some?
    && e.discrepancyType in {"missing", "mismatch", "duplicate", "timing"}
    && |e.externalId| <= 255 && |e.title| <= 500 && e.restFits
  }

  /** One run of handleMessage: the store call it makes next, or the settlement it makes. */
  datatype Handler =
    | Validating(msg: Msg)
    | Deduping(msg: Msg)
    | Creating(msg: Msg)
    | Created(msg: Msg, id: int)
    | Settling(msg: Msg, how: Settlement)
    | Finished(msg: Msg, how: Settlement)

  predicate Exhausted(m: Msg) {
    m.delivered.Some? && m.delivered.value > MAX_DELIVERY_ATTEMPTS
  }

  /** The checks made before the first store call. */
  function Receive(m: Msg): Handler {
    if Exhausted(m) then Settling(m, Term)
    else if m.envelope == None || !WellFormed(m.envelope.value) || m.envelope.value.tenant == None
    then Settling(m, Nak)
    else Validating(m)
  }

  predicate Accepted(m: Msg) {
    Receive(m) == Validating(m)
  }

  predicate Ingested(t: Tables, m: Msg) {
    && m.envelope.Some? && m.envelope.value.tenant.Some?
    && ExternalTaken(t, m.envelope.value.tenant.value, m.envelope.value.externalId)
  }

  function NewRow(e: Envelope, now: int): Disc
    requires e.tenant.Some? && ParseSeverity(e.severity).Some?
  {
    Disc(e.tenant.value, e.externalId, now, Open, ParseSeverity(e.severity).value, None)
  }

  predicate CanInsert(t: Tables, m: Msg, id: int)
    requires Accepted(m)
  {
    Storable(m.envelope.value) && id !in t.discs && !Ingested(t, m)
  }

  function HandlerStep(t: Tables, h: Handler, o: Outcome, active: bool, id: int, now: int): (Tables, Handler) {
    match h
    case Validating(m) => (t, if o == Done && active then Deduping(m) else Settling(m, Nak))
    case Deduping(m) => (t, if o == Done && Ingested(t, m) then Settling(m, Ack) else Creating(m))
    case Creating(m) =>
      if !Accepted(m) || !CanInsert(t, m, id) then (t, Settling(m, Nak))
      else
        (After(o, t, Insert(t, id, NewRow(m.envelope.value, now))),
         if o == Done then Created(m, id) else Settling(m, Nak))
    case Created(m, d) => (After(o, t, Append(t, d, EvReceived, Plain)), Settling(m, Ack))
    case Settling(m, how) => (t, Finished(m, how))
    case Finished(_, _) => (t, h)
  }

  // ---------------------------------------------------------------- escalation engine

  /** A candidate as the engine read it. */
  datatype Snapshot = Snapshot(id: int, row: Disc)

  /** Where the engine is in its work on the first pending candidate. */
  datatype Stage = Start | Cleared | Ready | Written | Logged(n: nat) | Answered(n: nat, result: SendResult)

  datatype Engine =
    | Idle
    | Working(rule: Rule, pending: seq<Snapshot>, stage: Stage)

  function Target(a: Action): Status {
    if a == Escalate then Escalated else AutoClosed
  }

  function EffectKind(a: Action): EventKind {
    if a == Escalate then EvEscalated else EvAutoClosed
  }

  function ClosingTime(a: Action, now: int): Option<int> {
    if a == AutoClose then Some(now) else None
  }

  function NextCandidate(e: Engine): Engine
    requires e.Working? && e.pending != []
  {
    Working(e.rule, e.pending[1..], Start)
  }

  function EngineStep(t: Tables, e: Engine, o: Outcome, now: int, hub: SendResult): (Tables, Engine)
    requires e.Working? && e.pending != []
  {
    if e.rule.action == Notify then NotifyStep(t, e, o, hub) else ChangeStep(t, e, o, now)
  }

  /** executeNotify: dedup, log row, send, log update. A refused send is one that a crash before
      it prevented; what the hub answers to the others is `hub`. */
  function NotifyStep(t: Tables, e: Engine, o: Outcome, hub: SendResult): (Tables, Engine)
    requires e.Working? && e.pending != []
  {
    var id := e.pending[0].id;
    match e.stage
    case Start =>
      (t, if o == Done && !HasNotice(t, e.rule.id, id) then e.(stage := Cleared) else NextCandidate(e))
    case Cleared =>
      (After(o, t, AddNotice(t, e.rule.id, id)),
       if o == Done then e.(stage := Logged(|t.notices|)) else NextCandidate(e))
    case Logged(n) =>
      (After(o, t, t.(sends := t.sends + [(e.rule.id, id)])),
       if o == Refused then NextCandidate(e) else e.(stage := Answered(n, hub)))
    case Answered(n, result) =>
      (After(o, t, SetNotice(t, n, AfterFirstSend(result), 1)), NextCandidate(e))
    case Ready => (t, NextCandidate(e))
    case Written => (t, NextCandidate(e))
  }

  /** executeEscalate and executeAutoClose: dedup, transition check on the row read earlier,
      severity, status, event. */
  function ChangeStep(t: Tables, e: Engine, o: Outcome, now: int): (Tables, Engine)
    requires e.Working? && e.pending != []
  {
    var id := e.pending[0].id;
    var action := e.rule.action;
    match e.stage
    case Start =>
      (t, if o != Done || HasEvent(t, id, EffectKind(action))
             || !ValidTransition(e.pending[0].row.status, Target(action)) then NextCandidate(e)
          else if action == Escalate && e.rule.newSeverity.Some? then e.(stage := Cleared)
          else e.(stage := Ready))
    case Cleared =>
      var name := if e.rule.newSeverity.Some? then e.rule.newSeverity.value else "";
      (After(o, t, SetSeverity(t, id, name)),
       if o == Done && ParseSeverity(name).Some? then e.(stage := Ready) else NextCandidate(e))
    case Ready =>
      (After(o, t, SetStatus(t, id, Target(action), ClosingTime(action, now))),
       if o == Done then e.(stage := Written) else NextCandidate(e))
    case Written =>
      (After(o, t, Append(t, id, EffectKind(action), ByRule(e.rule.id))), NextCandidate(e))
    case Logged(_) => (t, NextCandidate(e))
    case Answered(_, _) => (t, NextCandidate(e))
  }

  /** A result of ListForEscalation: the matching rows, each once, in any order. */
  predicate Candidates(t: Tables, r: Rule, now: int, list: seq<Snapshot>) {
    && (forall i :: 0 <= i < |list| ==>
          list[i].id in t.discs && list[i].row == t.discs[list[i].id] && Selects(r, now, list[i].row))
    && (forall i, j :: 0 <= i < j < |list| ==> list[i].id != list[j].id)
    && (forall d :: d in t.discs && Selects(r, now, t.discs[d]) ==> exists i :: 0 <= i < |list| && list[i].id == d)
  }

  // ---------------------------------------------------------------- users

  datatype Op = Acknowledge | Investigate | Resolve(resolutionType: string) | AddNote

  function OpTarget(op: Op): Option<Status> {
    match op
    case Acknowledge => Some(Acknowledged)
    case Investigate => Some(Investigating)
    case Resolve(_) => Some(Resolved)
    case AddNote => None
  }

  function OpKind(op: Op): EventKind {
    match op
    case Acknowledge => EvAcknowledged
    case Investigate => EvInvestigationStarted
    case Resolve(_) => EvResolved
    case AddNote => EvNoteAdded
  }

  function OpPayload(op: Op): Payload {
    match op
    case Resolve(r) => Resolution(r)
    case _ => Plain
  }

  /** What a user request asks: on which discrepancy of which tenant, and under which
      expected_sequence, if any. */
  datatype Request = Request(tenant: int, id: int, expected: Option<int>, op: Op)

  /** The latest sequence as GetLatestSequence reports it: other tenants' events do not show. */
  function CurrentSequence(t: Tables, tenant: int, id: int): nat {
    if id in t.discs && t.discs[id].tenant == tenant then Latest(t.events, id) else 0
  }

  predicate LockHolds(t: Tables, q: Request) {
    q.expected == None || q.expected == Some(CurrentSequence(t, q.tenant, q.id))
  }

  predicate Permitted(t: Tables, q: Request) {
    && q.id in t.discs && t.discs[q.id].tenant == q.tenant
    && LockHolds(t, q)
    && (q.op.Resolve? ==> ValidResolutionType(q.op.resolutionType))
    && (OpTarget(q.op).Some? ==> ValidTransition(t.discs[q.id].status, OpTarget(q.op).value))
  }

  /** The effect of a permitted request: status and event in one transaction, or a note. */
  function Serve(t: Tables, q: Request, now: int): Tables {
    var target := OpTarget(q.op);
    var t1 := if target == None then t
              else SetStatus(t, q.id, target.value, if q.op.Resolve? then Some(now) else None);
    Append(t1, q.id, OpKind(q.op), OpPayload(q.op))
  }

  // ---------------------------------------------------------------- the whole

  /** `taken` records, for each row, the statuses its status column has had so far. */
  datatype World = World(
    tables: Tables, engine: Engine, handlers: map<int, Handler>, taken: map<int, seq<Status>>)

  const INIT := World(EMPTY, Idle, map[], map[])

  datatype Act =
    | Deliver(handler: int, msg: Msg)
    | HandlerCall(handler: int, outcome: Outcome, active: bool, id: int, now: int)
    | Serving(request: Request, outcome: Outcome, now: int)
    | ListCandidates(rule: Rule, now: int, list: seq<Snapshot>)
    | EngineCall(outcome: Outcome, now: int, hub: SendResult)
    | RetryUpdate(notice: nat, status: NotifStatus, attempts: nat)
    | BurnSequence(gap: nat)

  /** The acts that can happen in a world; the others leave it as it is. */
  predicate Enabled(w: World, a: Act) {
    match a
    case Deliver(h, m) => h !in w.handlers
    case HandlerCall(h, _, _, _, _) => h in w.handlers
    case Serving(q, _, _) => Permitted(w.tables, q)
    case ListCandidates(r, now, list) =>
      ValidTriggerStatus(r.triggerStatus) && Candidates(w.tables, r, now, list)
      && (w.engine.Idle? || w.engine.pending == [])
    case EngineCall(_, _, _) => w.engine.Working? && w.engine.pending != []
    case RetryUpdate(_, _, _) => true
    case BurnSequence(_) => true
  }

  function Next(w: World, a: Act): World
    requires Enabled(w, a)
  {
    match a
    case Deliver(h, m) => w.(handlers := w.handlers[h := Receive(m)])
    case HandlerCall(h, o, active, id, now) =>
      var (t, s) := HandlerStep(w.tables, w.handlers[h], o, active, id, now);
      w.(tables := t, handlers := w.handlers[h := s])
    case Serving(q, o, now) => w.(tables := After(o, w.tables, Serve(w.tables, q, now)))
    case ListCandidates(r, now, list) => w.(engine := Working(r, list, Start))
    case EngineCall(o, now, hub) =>
      var (t, e) := EngineStep(w.tables, w.engine, o, now, hub);
      w.(tables := t, engine := e)
    case RetryUpdate(n, s, attempts) => w.(tables := SetNotice(w.tables, n, s, attempts))
    case BurnSequence(gap) => w.(tables := w.tables.(lastSeq := w.tables.lastSeq + gap))
  }

  /** The record of statuses after the rows of `before` became those of `after`. */
  function Recorded(taken: map<int, seq<Status>>, before: map<int, Disc>, after: map<int, Disc>): map<int, seq<Status>> {
    map d | d in after ::
      if d !in before || d !in taken then [after[d].status]
      else if after[d].status != before[d].status then taken[d] + [after[d].status]
      else taken[d]
  }

  function Apply(w: World, a: Act): World {
    if !Enabled(w, a) then w
    else
      var n := Next(w, a);
      n.(taken := Recorded(w.taken, w.tables.discs, n.tables.discs))
  }

  function Run(w: World, acts: seq<Act>): World {
    if acts == [] then w else Apply(Run(w, acts[..|acts| - 1]), acts[|acts| - 1])
  }

  lemma RunAppend(w: World, acts: seq<Act>, a: Act)
    ensures Run(w, acts + [a]) == Apply(Run(w, acts), a)
  {
    assert (acts + [a])[..|acts|] == acts;
  }

  lemma {:induction false} RunConcat(w: World, a: seq<Act>, b: seq<Act>)
    ensures Run(w, a + b) == Run(Run(w, a), b)
  {
    if b == [] {
      assert a + b == a;
    } else {
      assert (a + b)[..|a + b| - 1] == a + b[..|b| - 1];
      RunConcat(w, a, b[..|b| - 1]);
    }
  }
}
