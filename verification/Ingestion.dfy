/** handleMessage as the code runs it: effectful stages in order, each able to end the run with a settlement. */
module Ingestion {
  import opened Domain
  import opened Ledger
  import opened Machine
  import opened AnyRun
  import opened SerialRun
  import opened Store

  // ---------------------------------------------------------------- one handler run

  function StepsLeft(h: Handler): nat {
    match h
    case Validating(_) => 5
    case Deduping(_) => 4
    case Creating(_) => 3
    case Created(_, _) => 2
    case Settling(_, _) => 1
    case Finished(_, _) => 0
  }

  lemma StepForward(t: Tables, h: Handler, o: Outcome, active: bool, id: int, now: int)
    ensures !h.Finished? ==> StepsLeft(HandlerStep(t, h, o, active, id, now).1) < StepsLeft(h)
  {
    hide ExternalTaken, Ingested, Storable, Receive;
  }

  /** What is left of a handler run, when `fate` decides its store calls from the n-th on: the
      tables it leads to, its settlement, and the number of the next call. The settlement is no
      store call. */
  function Play(t: Tables, h: Handler, fate: nat -> Outcome, n: nat, active: bool, id: int, now: int): (Tables, Settlement, nat)
    decreases StepsLeft(h)
  {
    if h.Finished? then (t, h.how, n)
    else
      var o := if h.Settling? then Done else fate(n);
      StepForward(t, h, o, active, id, now);
      var (t1, h1) := HandlerStep(t, h, o, active, id, now);
      Play(t1, h1, fate, if h.Settling? then n else n + 1, active, id, now)
  }

  /** From `w`, the calls `acts` of handler `k` lead to these tables and this handler state. */
  ghost predicate Handles(w: World, acts: seq<Act>, k: int, t: Tables, h: Handler) {
    && (forall i :: 0 <= i < |acts| ==> (acts[i].Deliver? || acts[i].HandlerCall?) && acts[i].handler == k)
    && Run(w, acts).tables == t && Run(w, acts).engine == w.engine && Run(w, acts).handlers == w.handlers[k := h]
  }

  lemma HandlerCalled(w: World, acts: seq<Act>, k: int, t: Tables, h: Handler, o: Outcome, active: bool, id: int, now: int)
    requires Handles(w, acts, k, t, h)
    ensures var (t', h') := HandlerStep(t, h, o, active, id, now);
      && Handles(w, acts + [HandlerCall(k, o, active, id, now)], k, t', h')
      && (NoFailure(acts) && o == Done ==> NoFailure(acts + [HandlerCall(k, o, active, id, now)]))
  {
    hide HandlerStep, Recorded;
    RunAppend(w, acts, HandlerCall(k, o, active, id, now));
  }

  lemma {:induction false} PlayHandles(
    w: World, acts: seq<Act>, k: int, m: Msg, t: Tables, h: Handler, fate: nat -> Outcome, n: nat, active: bool, id: int, now: int)
    returns (all: seq<Act>)
    requires Handles(w, acts, k, t, h) && h.msg == m
    ensures var (t', how, _) := Play(t, h, fate, n, active, id, now); Handles(w, all, k, t', Finished(m, how))
    ensures NoFailure(acts) && NeverFails(fate) ==> NoFailure(all)
    decreases StepsLeft(h)
  {
    hide Handles, NoFailure, NeverFails, ExternalTaken, Ingested, Storable, Receive;
    if h.Finished? {
      all := acts;
    } else {
      var o := if h.Settling? then Done else fate(n);
      StepForward(t, h, o, active, id, now);
      HandlerCalled(w, acts, k, t, h, o, active, id, now);
      var (t1, h1) := HandlerStep(t, h, o, active, id, now);
      FateIsDone(fate, n);
      all := PlayHandles(w, acts + [HandlerCall(k, o, active, id, now)], k, m, t1, h1, fate,
                         if h.Settling? then n else n + 1, active, id, now);
    }
  }

  lemma FateIsDone(fate: nat -> Outcome, n: nat)
    ensures NeverFails(fate) ==> fate(n) == Done
  {
  }

  /** A handler run is a run of the machine's handler `k`. */
  lemma MessageHandles(w: World, k: int, m: Msg, fate: nat -> Outcome, n: nat, active: bool, id: int, now: int)
    returns (acts: seq<Act>)
    requires k !in w.handlers
    ensures var (t', how, _) := Play(w.tables, Receive(m), fate, n, active, id, now); Handles(w, acts, k, t', Finished(m, how))
    ensures NeverFails(fate) ==> NoFailure(acts)
  {
    hide Play, NeverFails;
    RunAppend(w, [], Deliver(k, m));
    assert [] + [Deliver(k, m)] == [Deliver(k, m)];
    assert Handles(w, [Deliver(k, m)], k, w.tables, Receive(m));
    acts := PlayHandles(w, [Deliver(k, m)], k, m, w.tables, Receive(m), fate, n, active, id, now);
  }

  class Consumer {
    const db: Backend
    /** Every Ack, Nak and Term made so far. */
    var settled: seq<Settlement>

    constructor (db: Backend)
      ensures this.db == db && settled == []
    {
      this.db, settled := db, [];
    }

    /** The message's tenant is among the active ones. */
    predicate Active(m: Msg)
      reads db`activeTenants
    {
      m.envelope.Some? && m.envelope.value.tenant.Some? && m.envelope.value.tenant.value in db.activeTenants
    }

    /** Settles the message unless its tenant is known to be active. */
    method ValidateTenant(m: Msg, now: int) returns (ok: bool)
      requires Accepted(m)
      modifies this`settled, db`calls
      ensures settled == if ok then old(settled) else old(settled) + [Nak]
      ensures ok <==> db.fate(old(db.calls)) == Done && Active(m)
      ensures db.calls == old(db.calls) + 1
      ensures forall id ::
        Play(db.Contents(), Validating(m), db.fate, old(db.calls), Active(m), id, now)
        == if ok then Play(db.Contents(), Deduping(m), db.fate, db.calls, Active(m), id, now)
           else (db.Contents(), Nak, db.calls)
    {
      PlayOneCall(db.Contents(), m, db.fate, db.calls, Active(m), now);
      var o, active := db.TenantActive(m.envelope.value.tenant.value);
      ok := o == Done && active;
      if !ok {
        settled := settled + [Nak];
      }
    }

    /** Acknowledges the message if its row is known to exist. A failed lookup is no duplicate. */
    method IsDuplicate(m: Msg, now: int) returns (found: bool)
      requires Accepted(m)
      modifies this`settled, db`calls
      ensures settled == if found then old(settled) + [Ack] else old(settled)
      ensures found <==> db.fate(old(db.calls)) == Done && Ingested(db.Contents(), m)
      ensures db.calls == old(db.calls) + 1
      ensures forall id ::
        Play(db.Contents(), Deduping(m), db.fate, old(db.calls), Active(m), id, now)
        == if found then (db.Contents(), Ack, db.calls)
           else Play(db.Contents(), Creating(m), db.fate, db.calls, Active(m), id, now)
    {
      hide ExternalTaken;
      PlayOneCall(db.Contents(), m, db.fate, db.calls, Active(m), now);
      var o;
      o, found := db.GetByExternalId(m.envelope.value.tenant.value, m.envelope.value.externalId);
      if found {
        settled := settled + [Ack];
      }
    }

    /** Creates the row and its received event, and acknowledges even when the event failed. */
    method PersistDiscrepancy(m: Msg, now: int) returns (created: Option<int>, ghost id: int)
      requires Accepted(m)
      modifies this`settled, db`calls, db`discs, db`events, db`lastSeq
      ensures var how := if created.Some? then Ack else Nak;
        && settled == old(settled) + [how]
        && Play(old(db.Contents()), Creating(m), db.fate, old(db.calls), Active(m), id, now) == (db.Contents(), how, db.calls)
      ensures id !in old(db.discs) && (created.Some? ==> created.value == id && StoredAs(old(db.discs), db.discs, m, id, now))
      ensures created.Some? <==> db.fate(old(db.calls)) == Done && CanInsert(old(db.Contents()), m, id)
      ensures created.Some? ==>
        if db.fate(old(db.calls) + 1) == Refused then db.events == old(db.events) && db.lastSeq == old(db.lastSeq)
        else
          && db.events == old(db.events) + [Event(old(db.lastSeq) + 1, id, EvReceived, Plain)]
          && db.lastSeq == old(db.lastSeq) + 1
      ensures created == None && db.fate(old(db.calls)) != Lost ==> db.Contents() == old(db.Contents())
    {
      hide ExternalTaken, SeverityName, ParseSeverity, Play;
      created := None;
      ghost var t, n := db.Contents(), db.calls;
      var o, row, ok := db.Create(m.envelope.value, now);
      id := row;
      PlayCreating(t, m, db.fate, n, Active(m), id, now);
      if !ok {
        settled := settled + [Nak];
        return;
      }
      RowIsMessages(m.envelope.value, now);
      created := Some(row);
      PlayCreated(db.Contents(), m, db.fate, db.calls, Active(m), id, now);
      o := db.AppendEvent(row, EvReceived, Plain);
      settled := settled + [Ack];
    }

    /** One run settles its message exactly once. Whatever fails, it does what the machine's handler
        does. It terminates exactly what has been delivered more than three times, acknowledges
        only what is stored, and a row it creates is the message's. It creates a row exactly for a
        complete new message whose tenant is known and whose insert is done, even when the lookup
        fails, and acknowledges exactly what it creates, even when the event fails, or finds there. */
    method HandleMessage(m: Msg, now: int) returns (created: Option<int>, ghost id: int)
      modifies this`settled, db`calls, db`discs, db`events, db`lastSeq
      ensures |settled| == |old(settled)| + 1 && settled[..|old(settled)|] == old(settled)
      ensures Play(old(db.Contents()), Receive(m), db.fate, old(db.calls), Active(m), id, now)
           == (db.Contents(), settled[|old(settled)|], db.calls)
      ensures settled[|old(settled)|] == Term <==> m.delivered.Some? && m.delivered.value > 3
      ensures settled[|old(settled)|] == Ack ==> Stored(db.discs, m)
      ensures created.Some? ==> StoredAs(old(db.discs), db.discs, m, created.value, now)
      ensures var n := old(db.calls);
        created.Some? <==>
          && Complete(m, db.activeTenants) && Fits(m) && !Stored(old(db.discs), m)
          && db.fate(n) == Done && db.fate(n + 2) == Done
      ensures var n := old(db.calls);
        settled[|old(settled)|] == Ack <==>
          || created.Some?
          || (Complete(m, db.activeTenants) && Stored(old(db.discs), m) && db.fate(n) == Done && db.fate(n + 1) == Done)
      ensures created == None && db.fate(old(db.calls) + 2) != Lost ==> db.Contents() == old(db.Contents())
      ensures created.Some? ==>
        if db.fate(old(db.calls) + 3) == Refused then db.events == old(db.events) && db.lastSeq == old(db.lastSeq)
        else
          && db.events == old(db.events) + [Event(old(db.lastSeq) + 1, created.value, EvReceived, Plain)]
          && db.lastSeq == old(db.lastSeq) + 1
    {
      hide Play, ParseSeverity, SeverityName, ExternalTaken, Storable, StoredAs, Stored;
      CompleteIff(m, db.activeTenants);
      StoredIff(db.Contents(), m);
      FitsIff(m);
      created, id := None, 0;
      PlaySettling(db.Contents(), m, db.fate, db.calls, Active(m), id, now);
      if m.delivered.Some? && m.delivered.value > MAX_DELIVERY_ATTEMPTS {
        settled := settled + [Term];
        return;
      }
      if m.envelope == None || !WellFormed(m.envelope.value) || m.envelope.value.tenant == None {
        settled := settled + [Nak];
        return;
      }
      ghost var t, n0 := db.Contents(), db.calls;
      var ok := ValidateTenant(m, now);
      if !ok {
        return;
      }
      ghost var n1 := db.calls;
      assert db.Contents() == t;
      assert forall id ::
        Play(t, Validating(m), db.fate, n0, Active(m), id, now) == Play(t, Deduping(m), db.fate, n1, Active(m), id, now);
      var found := IsDuplicate(m, now);
      assert db.Contents() == t;
      assert forall id ::
        Play(t, Deduping(m), db.fate, n1, Active(m), id, now)
        == if found then (t, Ack, db.calls) else Play(t, Creating(m), db.fate, db.calls, Active(m), id, now);
      if found {
        return;
      }
      created, id := PersistDiscrepancy(m, now);
      if created.Some? {
        StoredIsThere(old(db.discs), db.discs, m, id, now);
      }
    }
  }

  lemma PlayOneCall(t: Tables, m: Msg, fate: nat -> Outcome, n: nat, active: bool, now: int)
    ensures forall id ::
      Play(t, Validating(m), fate, n, active, id, now)
      == if fate(n) == Done && active then Play(t, Deduping(m), fate, n + 1, active, id, now) else (t, Nak, n + 1)
    ensures forall id ::
      Play(t, Deduping(m), fate, n, active, id, now)
      == if fate(n) == Done && Ingested(t, m) then (t, Ack, n + 1) else Play(t, Creating(m), fate, n + 1, active, id, now)
  {
    hide ExternalTaken, Storable, Receive;
    forall id
      ensures Play(t, Validating(m), fate, n, active, id, now)
           == if fate(n) == Done && active then Play(t, Deduping(m), fate, n + 1, active, id, now) else (t, Nak, n + 1)
      ensures Play(t, Deduping(m), fate, n, active, id, now)
           == if fate(n) == Done && Ingested(t, m) then (t, Ack, n + 1) else Play(t, Creating(m), fate, n + 1, active, id, now)
    {
      PlaySettling(t, m, fate, n + 1, active, id, now);
    }
  }

  lemma PlayCreating(t: Tables, m: Msg, fate: nat -> Outcome, n: nat, active: bool, id: int, now: int)
    requires Accepted(m)
    ensures Play(t, Creating(m), fate, n, active, id, now)
         == if !CanInsert(t, m, id) then (t, Nak, n + 1)
            else
              var t1 := After(fate(n), t, Insert(t, id, NewRow(m.envelope.value, now)));
              if fate(n) == Done then Play(t1, Created(m, id), fate, n + 1, active, id, now) else (t1, Nak, n + 1)
  {
    hide ExternalTaken, Insert;
    PlaySettling(t, m, fate, n + 1, active, id, now);
    if CanInsert(t, m, id) {
      PlaySettling(After(fate(n), t, Insert(t, id, NewRow(m.envelope.value, now))), m, fate, n + 1, active, id, now);
    }
  }

  lemma PlayCreated(t: Tables, m: Msg, fate: nat -> Outcome, n: nat, active: bool, id: int, now: int)
    ensures Play(t, Created(m, id), fate, n, active, id, now)
         == (After(fate(n), t, Append(t, id, EvReceived, Plain)), Ack, n + 1)
  {
    hide Append;
    PlaySettling(After(fate(n), t, Append(t, id, EvReceived, Plain)), m, fate, n + 1, active, id, now);
  }

  lemma PlaySettling(t: Tables, m: Msg, fate: nat -> Outcome, n: nat, active: bool, id: int, now: int)
    ensures forall how :: Play(t, Settling(m, how), fate, n, active, id, now) == (t, how, n)
  {
  }

  // ---------------------------------------------------------------- in the message's own terms

  /** Delivered at most three times as far as is known, complete, and of an active tenant. */
  predicate Complete(m: Msg, tenants: set<int>) {
    && !(m.delivered.Some? && m.delivered.value > 3)
    && m.envelope.Some?
    && var e := m.envelope.value;
    && e.eventType != "" && e.source != "" && e.tenantId != "" && e.timestamp != ""
    && e.externalId != "" && e.severity != "" && e.title != "" && e.discrepancyType != ""
    && e.tenant.Some? && e.tenant.value in tenants
  }

  /** The database takes the message's texts. */
  ghost predicate Fits(m: Msg) {
    && m.envelope.Some?
    && var e := m.envelope.value;
    && (exists s :: e.severity == SeverityName(s))
    && e.discrepancyType in {"missing", "mismatch", "duplicate", "timing"}
    && |e.externalId| <= 255 && |e.title| <= 500 && e.restFits
  }

  /** There is a row of the message's tenant and external id. */
  predicate Stored(discs: map<int, Disc>, m: Msg) {
    && m.envelope.Some? && m.envelope.value.tenant.Some?
    && exists d | d in discs ::
         Some(discs[d].tenant) == m.envelope.value.tenant && discs[d].externalId == m.envelope.value.externalId
  }

  /** The message has become row `id`: its tenant, external id and severity, created now, open and
      unresolved; and nothing else has changed. */
  predicate StoredAs(before: map<int, Disc>, after: map<int, Disc>, m: Msg, id: int, now: int) {
    && m.envelope.Some? && id !in before && id in after && after == before[id := after[id]]
    && var e, row := m.envelope.value, after[id];
    && Some(row.tenant) == e.tenant && row.externalId == e.externalId && SeverityName(row.severity) == e.severity
    && row.createdAt == now && row.status == Open && row.resolvedAt == None
  }

  lemma CompleteIff(m: Msg, tenants: set<int>)
    ensures Complete(m, tenants) <==> Accepted(m) && m.envelope.value.tenant.value in tenants
    ensures Exhausted(m) <==> m.delivered.Some? && m.delivered.value > 3
  {
  }

  lemma FitsIff(m: Msg)
    ensures Fits(m) <==> m.envelope.Some? && Storable(m.envelope.value)
  {
    hide ParseSeverity, SeverityName;
    if m.envelope.Some? {
      forall s ensures ParseSeverity(m.envelope.value.severity) == Some(s) <==> m.envelope.value.severity == SeverityName(s) {
        SeverityNamed(m.envelope.value.severity, s);
      }
    }
  }

  lemma StoredIff(t: Tables, m: Msg)
    ensures Stored(t.discs, m) <==> Ingested(t, m)
  {
  }

  lemma RowIsMessages(e: Envelope, now: int)
    requires e.tenant.Some? && ParseSeverity(e.severity).Some?
    ensures SeverityName(NewRow(e, now).severity) == e.severity
  {
    SeverityNamed(e.severity, ParseSeverity(e.severity).value);
  }

  lemma StoredIsThere(before: map<int, Disc>, after: map<int, Disc>, m: Msg, id: int, now: int)
    requires StoredAs(before, after, m, id, now)
    requires m.envelope.value.tenant.Some?
    ensures Stored(after, m)
  {
  }

  /** In every run, a message that is redelivered only after a Nak, with readable delivery
      counts from one, is finished within four deliveries: `runs` are its handler runs so far. */
  lemma FinishedWithinFour(acts: seq<Act>, envelope: Option<Envelope>, runs: seq<int>)
    requires var hs := Run(INIT, acts).handlers;
      && (forall i | 0 <= i < |runs| ::
            runs[i] in hs && hs[runs[i]].Finished? && hs[runs[i]].msg == Msg(envelope, Some(i + 1)))
      && (forall i :: 0 <= i < |runs| - 1 ==> hs[runs[i]].how == Nak)
    ensures |runs| <= MAX_DELIVERY_ATTEMPTS + 1
    ensures |runs| == MAX_DELIVERY_ATTEMPTS + 1 ==> Run(INIT, acts).handlers[runs[MAX_DELIVERY_ATTEMPTS]].how == Term
  {
    hide Run, TablesOk, EngineOk;
    RunKeeps(acts);
    var w := Run(INIT, acts);
    if |runs| > MAX_DELIVERY_ATTEMPTS {
      var k := runs[MAX_DELIVERY_ATTEMPTS];
      assert k in w.handlers && w.handlers[k].Finished? && Exhausted(w.handlers[k].msg);
      assert HandlerOk(w.tables, w.handlers[k]);
    }
  }
}
