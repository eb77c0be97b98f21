/** Whether a closed discrepancy stays closed. */
module Closing {
  import opened Domain
  import opened Ledger
  import opened Machine
  import opened AnyRun
  import opened SerialRun
  import opened Locking
  import opened Replay

  /** The engine writes to `d`: a status update that takes effect, or a severity update that takes
      effect with a known severity other than the one it has. */
  predicate Overwrites(w: World, a: Act, d: int) {
    && a.EngineCall? && Enabled(w, a) && a.outcome != Refused
    && w.engine.rule.action != Notify && w.engine.pending[0].id == d && d in w.tables.discs
    && var row := w.tables.discs[d];
       match w.engine.stage
       case Ready => true
       case Cleared =>
         && w.engine.rule.newSeverity.Some?
         && ParseSeverity(w.engine.rule.newSeverity.value).Some?
         && ParseSeverity(w.engine.rule.newSeverity.value).value != row.severity
       case _ => false
  }

  /** Which calls change a closed row: those of an engine that overwrites it, and no others,
      in every reachable world. */
  lemma ClosedRowChanges(w: World, a: Act, d: int)
    requires Inv(w) && d in w.tables.discs && Closed(w.tables.discs[d].status)
    ensures d in Apply(w, a).tables.discs
    ensures Apply(w, a).tables.discs[d] != w.tables.discs[d] <==> Overwrites(w, a, d)
  {
    hide TablesOk, EngineOk, HandlersOk, EngineStep, HandlerStep, Serve, Recorded, Latest, Overwrites;
    StepKeeps(w, a);
    if Enabled(w, a) {
      match a
      case EngineCall(o, now, hub) => EngineChanges(w, o, now, hub, d);
      case HandlerCall(h, o, active, id, now) => HandlerSpares(w, h, o, active, id, now, d);
      case Serving(q, o, now) => UserSpares(w, q, o, now, d);
      case _ => OnlyTheEngine(w, a, d);
    } else {
      NotEnabled(w, a, d);
    }
  }

  lemma OnlyTheEngine(w: World, a: Act, d: int)
    requires !a.EngineCall?
    ensures !Overwrites(w, a, d)
  {
  }

  lemma NotEnabled(w: World, a: Act, d: int)
    requires !Enabled(w, a)
    ensures !Overwrites(w, a, d)
  {
  }

  lemma EngineChanges(w: World, o: Outcome, now: int, hub: SendResult, d: int)
    requires Enabled(w, EngineCall(o, now, hub)) && EngineOk(w.tables, w.engine)
    requires d in w.tables.discs && Closed(w.tables.discs[d].status)
    ensures var t' := EngineStep(w.tables, w.engine, o, now, hub).0;
      d in t'.discs && (t'.discs[d] != w.tables.discs[d] <==> Overwrites(w, EngineCall(o, now, hub), d))
  {
    hide HasEvent, HasNotice, ParseSeverity;
    NoNameNoSeverity();
  }

  lemma NoNameNoSeverity()
    ensures ParseSeverity("") == None
  {
  }

  lemma HandlerSpares(w: World, h: int, o: Outcome, active: bool, id: int, now: int, d: int)
    requires h in w.handlers && d in w.tables.discs
    ensures var t' := HandlerStep(w.tables, w.handlers[h], o, active, id, now).0;
      d in t'.discs && t'.discs[d] == w.tables.discs[d]
    ensures !Overwrites(w, HandlerCall(h, o, active, id, now), d)
  {
  }

  lemma UserSpares(w: World, q: Request, o: Outcome, now: int, d: int)
    requires Permitted(w.tables, q) && d in w.tables.discs && Closed(w.tables.discs[d].status)
    ensures var t' := After(o, w.tables, Serve(w.tables, q, now));
      d in t'.discs && t'.discs[d] == w.tables.discs[d]
    ensures !Overwrites(w, Serving(q, o, now), d)
  {
    hide Latest, ValidResolutionType;
  }

  // ---------------------------------------------------------------- whole runs

  /** A discrepancy that is closed at moment `c` of a run keeps its row unchanged up to every
      later moment if and only if no call from then on overwrites it. */
  lemma {:induction false} ClosedUntilOverwritten(acts: seq<Act>, c: nat, d: int)
    requires c <= |acts| && d in At(acts, c).tables.discs && Closed(At(acts, c).tables.discs[d].status)
    ensures (forall j :: c <= j <= |acts| ==>
               d in At(acts, j).tables.discs && At(acts, j).tables.discs[d] == At(acts, c).tables.discs[d])
       <==> (forall j :: c <= j < |acts| ==> !Overwrites(At(acts, j), acts[j], d))
  {
    hide Inv, Run, Apply, Overwrites;
    if forall j :: c <= j < |acts| ==> !Overwrites(At(acts, j), acts[j], d) {
      forall j | c <= j <= |acts|
        ensures d in At(acts, j).tables.discs && At(acts, j).tables.discs[d] == At(acts, c).tables.discs[d]
      {
        StaysUntil(acts, c, j, d);
      }
    } else {
      var j :| c <= j < |acts| && Overwrites(At(acts, j), acts[j], d);
      if d in At(acts, j).tables.discs && At(acts, j).tables.discs[d] == At(acts, c).tables.discs[d] {
        RunKeeps(acts[..j]);
        ClosedRowChanges(At(acts, j), acts[j], d);
        AtNext(acts, j);
      }
    }
  }

  lemma {:induction false} StaysUntil(acts: seq<Act>, c: nat, j: nat, d: int)
    requires c <= j <= |acts| && d in At(acts, c).tables.discs && Closed(At(acts, c).tables.discs[d].status)
    requires forall i :: c <= i < j ==> !Overwrites(At(acts, i), acts[i], d)
    ensures d in At(acts, j).tables.discs && At(acts, j).tables.discs[d] == At(acts, c).tables.discs[d]
    decreases j
  {
    hide Inv, Run, Apply, Overwrites;
    if c < j {
      StaysUntil(acts, c, j - 1, d);
      RunKeeps(acts[..j - 1]);
      ClosedRowChanges(At(acts, j - 1), acts[j - 1], d);
      AtNext(acts, j - 1);
    }
  }

  /** An engine whose candidate is as it read it overwrites no closed row. */
  lemma FreshSparesClosed(w: World, a: Act, d: int)
    requires Inv(w) && Fresh(w, d) && d in w.tables.discs && Closed(w.tables.discs[d].status)
    ensures !Overwrites(w, a, d)
  {
    hide TablesOk, HandlersOk, HandlerHolds, ParseSeverity, HasEvent, HasNotice;
    var e := w.engine;
    assert e.Working? && e.pending != [] && e.pending[0].id == d ==> FreshCandidate(w.tables, e, 0);
  }

  lemma {:induction false} SerialPrefix(acts: seq<Act>, i: nat, d: int)
    requires i <= |acts| && SerialFrom(INIT, acts, d)
    ensures SerialFrom(INIT, acts[..i], d)
    decreases |acts|
  {
    if i < |acts| {
      assert acts[..|acts| - 1][..i] == acts[..i];
      SerialPrefix(acts[..|acts| - 1], i, d);
    } else {
      assert acts[..i] == acts;
    }
  }

  /** Closed for good. In a run that is serial for `d`, whatever calls fail, the row of a resolved
      or auto-closed `d` never changes again: not its status, its resolved time or its severity. */
  lemma ClosedForGood(acts: seq<Act>, c: nat, d: int)
    requires SerialFrom(INIT, acts, d) && c <= |acts|
    requires d in At(acts, c).tables.discs && Closed(At(acts, c).tables.discs[d].status)
    ensures forall j | c <= j <= |acts| ::
      d in At(acts, j).tables.discs && At(acts, j).tables.discs[d] == At(acts, c).tables.discs[d]
  {
    forall j | c <= j <= |acts|
      ensures d in At(acts, j).tables.discs && At(acts, j).tables.discs[d] == At(acts, c).tables.discs[d]
    {
      SerialStays(acts, c, j, d);
    }
  }

  lemma {:induction false} SerialStays(acts: seq<Act>, c: nat, j: nat, d: int)
    requires SerialFrom(INIT, acts, d) && c <= j <= |acts|
    requires d in At(acts, c).tables.discs && Closed(At(acts, c).tables.discs[d].status)
    ensures d in At(acts, j).tables.discs && At(acts, j).tables.discs[d] == At(acts, c).tables.discs[d]
    decreases j
  {
    hide Inv, Run, Apply, Overwrites, Tracked, Fresh, Misses, LastMissed;
    if c < j {
      SerialStays(acts, c, j - 1, d);
      SerialPrefix(acts, j - 1, d);
      RunTracked(acts[..j - 1], d);
      FreshSparesClosed(At(acts, j - 1), acts[j - 1], d);
      ClosedRowChanges(At(acts, j - 1), acts[j - 1], d);
      AtNext(acts, j - 1);
    }
  }

  // ---------------------------------------------------------------- a run that reopens

  /** `d` is ingested from `m`, acknowledged and investigated. */
  function Investigated(m: Msg, d: int): seq<Act>
    requires Accepted(m)
  {
    var call, tenant := HandlerCall(0, Done, true, d, 0), m.envelope.value.tenant.value;
    [Deliver(0, m), call, call, call, call,
     Serving(Request(tenant, d, None, Acknowledge), Done, 0),
     Serving(Request(tenant, d, None, Investigate), Done, 0)]
  }

  /** Then the engine lists it under the escalate rule `r` and passes its checks; a user resolves
      it; the engine writes its status. No call fails. */
  function Reopening(m: Msg, d: int, r: Rule, resolutionType: string, now: int, stamp: int): seq<Act>
    requires Accepted(m) && Storable(m.envelope.value)
  {
    Investigated(m, d) +
    [ListCandidates(r, now, [Snapshot(d, NewRow(m.envelope.value, 0).(status := Investigating))]),
     EngineCall(Done, now, SendFailed),
     Serving(Request(m.envelope.value.tenant.value, d, None, Resolve(resolutionType)), Done, stamp),
     EngineCall(Done, now, SendFailed)]
  }

  predicate CanReopen(m: Msg, d: int, r: Rule, resolutionType: string, now: int) {
    && Accepted(m) && Storable(m.envelope.value) && ValidResolutionType(resolutionType)
    && r.action == Escalate && r.newSeverity == None && r.triggerStatus == Investigating
    && Selects(r, now, NewRow(m.envelope.value, 0).(status := Investigating))
  }

  /** `d` is the only row, no handler is at work on it, and it has no escalated event yet. */
  ghost predicate Only(w: World, d: int, row: Disc, e: Engine) {
    && w.tables.discs == map[d := row] && w.engine == e && !HandlerHolds(w, d)
    && forall i :: 0 <= i < |w.tables.events| ==> w.tables.events[i].kind != EvEscalated
  }

  lemma UserMoves(w: World, d: int, row: Disc, e: Engine, q: Request, now: int)
    requires Only(w, d, row, e) && q.id == d && q.tenant == row.tenant && q.expected == None
    requires OpTarget(q.op).Some? && ValidTransition(row.status, OpTarget(q.op).value)
    requires q.op.Resolve? ==> ValidResolutionType(q.op.resolutionType)
    ensures var at := if q.op.Resolve? then Some(now) else None;
      Only(Apply(w, Serving(q, Done, now)), d, row.(status := OpTarget(q.op).value, resolvedAt := at), e)
  {
    hide Recorded, Latest, ValidTransition, ValidResolutionType;
    assert Permitted(w.tables, q);
  }

  lemma EngineLists(w: World, d: int, row: Disc, r: Rule, now: int)
    requires Only(w, d, row, Idle) && Selects(r, now, row) && ValidTriggerStatus(r.triggerStatus)
    ensures Only(Apply(w, ListCandidates(r, now, [Snapshot(d, row)])), d, row, Working(r, [Snapshot(d, row)], Start))
  {
    hide Recorded, Selects;
    var list := [Snapshot(d, row)];
    assert list[0].id == d;
    assert Candidates(w.tables, r, now, list);
  }

  lemma EngineChecks(w: World, d: int, row: Disc, r: Rule, now: int)
    requires Only(w, d, row, Working(r, [Snapshot(d, row)], Start))
    requires r.action == Escalate && r.newSeverity == None && row.status == Investigating
    ensures Only(Apply(w, EngineCall(Done, now, SendFailed)), d, row, Working(r, [Snapshot(d, row)], Ready))
  {
    hide Recorded;
  }

  lemma EngineWrites(w: World, d: int, row: Disc, s: Snapshot, r: Rule, now: int)
    requires Only(w, d, row, Working(r, [s], Ready)) && s.id == d && r.action == Escalate
    ensures Only(Apply(w, EngineCall(Done, now, SendFailed)), d,
                 row.(status := Escalated, resolvedAt := None), Working(r, [s], Written))
  {
    hide Recorded;
  }

  lemma Ingests(m: Msg, d: int, acts: seq<Act>)
    requires Accepted(m) && Storable(m.envelope.value) && |acts| >= 5 && acts[..4] == Crossing(m, d)[..4]
    requires acts[4] == HandlerCall(0, Done, true, d, 0)
    ensures Only(At(acts, 5), d, NewRow(m.envelope.value, 0), Idle)
  {
    hide Run, Recorded, NotifyStep, ChangeStep;
    FirstHalf(m, d, Crossing(m, d), NewRow(m.envelope.value, 0));
    AtNext(acts, 4);
  }

  /** Without seriality a closed row does not stay. After this run from the start, in which no
      call fails, a discrepancy that was resolved is escalated and its resolved time is gone, for
      every message, rule and clock it can be run with. */
  lemma StaleWriteReopens(m: Msg, d: int, r: Rule, resolutionType: string, now: int, stamp: int)
    requires CanReopen(m, d, r, resolutionType, now)
    ensures var acts := Reopening(m, d, r, resolutionType, now, stamp);
      var row := NewRow(m.envelope.value, 0);
      && NoFailure(acts) && !SerialFrom(INIT, acts, d)
      && At(acts, 10).tables.discs == map[d := row.(status := Resolved, resolvedAt := Some(stamp))]
      && At(acts, 11).tables.discs == map[d := row.(status := Escalated, resolvedAt := None)]
  {
    hide Run, Apply, SerialFrom, Selects, ValidResolutionType;
    var acts, row := Reopening(m, d, r, resolutionType, now, stamp), NewRow(m.envelope.value, 0);
    ReopeningRuns(m, d, r, resolutionType, now, stamp, acts, row);
    if SerialFrom(INIT, acts, d) {
      ClosedForGood(acts, 10, d);
    }
  }

  lemma ReopeningRuns(m: Msg, d: int, r: Rule, resolutionType: string, now: int, stamp: int, acts: seq<Act>, row: Disc)
    requires CanReopen(m, d, r, resolutionType, now) && |acts| >= 11 && row == NewRow(m.envelope.value, 0)
    requires acts[..11] == Reopening(m, d, r, resolutionType, now, stamp)
    ensures var s := Snapshot(d, row.(status := Investigating));
      && Only(At(acts, 9), d, s.row, Working(r, [s], Ready))
      && Only(At(acts, 10), d, row.(status := Resolved, resolvedAt := Some(stamp)), Working(r, [s], Ready))
      && Only(At(acts, 11), d, row.(status := Escalated, resolvedAt := None), Working(r, [s], Written))
  {
    hide Run, Apply, Selects, ValidResolutionType, Only, NewRow;
    var re := Reopening(m, d, r, resolutionType, now, stamp);
    var tenant := m.envelope.value.tenant.value;
    RowIsOpen(m.envelope.value, row);
    assert forall i :: 0 <= i < 11 ==> acts[i] == re[i];
    assert acts[..7] == Investigated(m, d);
    InvestigatedRuns(m, d, acts, row);
    var s := Snapshot(d, row.(status := Investigating));
    EngineLists(At(acts, 7), d, s.row, r, now);
    AtNext(acts, 7);
    EngineChecks(At(acts, 8), d, s.row, r, now);
    AtNext(acts, 8);
    UserMoves(At(acts, 9), d, s.row, Working(r, [s], Ready), Request(tenant, d, None, Resolve(resolutionType)), stamp);
    AtNext(acts, 9);
    EngineWrites(At(acts, 10), d, row.(status := Resolved, resolvedAt := Some(stamp)), s, r, now);
    AtNext(acts, 10);
  }

  lemma InvestigatedRuns(m: Msg, d: int, acts: seq<Act>, row: Disc)
    requires Accepted(m) && Storable(m.envelope.value) && row == NewRow(m.envelope.value, 0)
    requires |acts| >= 7 && acts[..7] == Investigated(m, d)
    ensures Only(At(acts, 5), d, row, Idle) && Only(At(acts, 6), d, row.(status := Acknowledged), Idle)
    ensures Only(At(acts, 7), d, row.(status := Investigating), Idle)
  {
    hide Run, Apply, Only, NewRow;
    var tenant, inv := m.envelope.value.tenant.value, Investigated(m, d);
    RowIsOpen(m.envelope.value, row);
    assert forall i :: 0 <= i < 7 ==> acts[i] == inv[i];
    assert acts[..4] == Crossing(m, d)[..4];
    Ingests(m, d, acts);
    UserMoves(At(acts, 5), d, row, Idle, Request(tenant, d, None, Acknowledge), 0);
    AtNext(acts, 5);
    var acknowledged := row.(status := Acknowledged);
    UserMoves(At(acts, 6), d, acknowledged, Idle, Request(tenant, d, None, Investigate), 0);
    AtNext(acts, 6);
  }

  lemma RowIsOpen(e: Envelope, row: Disc)
    requires e.tenant.Some? && ParseSeverity(e.severity).Some? && row == NewRow(e, 0)
    ensures row.status == Open && row.resolvedAt == None && row.tenant == e.tenant.value
  {
  }
}
