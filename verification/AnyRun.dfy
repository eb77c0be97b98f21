/**
 What every run of the machine keeps: any interleaving of handlers, users and the engine, any
 failure of any store call.
*/
module AnyRun {
  import opened Domain
  import opened Ledger
  import opened Machine

  /** The ledger is numbered in order, by the counter, and speaks of known discrepancies. */
  ghost predicate Sequenced(t: Tables) {
    && (forall i, j :: 0 <= i < j < |t.events| ==> t.events[i].seqNum < t.events[j].seqNum)
    && (forall i :: 0 <= i < |t.events| ==> 0 < t.events[i].seqNum <= t.lastSeq && t.events[i].disc in t.discs)
  }

  /** No two rows share (tenant, external_id). */
  ghost predicate UniqueExternal(t: Tables) {
    forall c, d | c in t.discs && d in t.discs ::
      t.discs[c].tenant == t.discs[d].tenant && t.discs[c].externalId == t.discs[d].externalId ==> c == d
  }

  /** resolved_at is set exactly on closed rows. */
  ghost predicate ResolvedIffClosed(t: Tables) {
    forall d :: d in t.discs ==> (t.discs[d].resolvedAt.Some? <==> Closed(t.discs[d].status))
  }

  ghost predicate AtMostOne(t: Tables, kind: EventKind) {
    forall i, j | 0 <= i < j < |t.events| ::
      t.events[i].kind == kind && t.events[j].kind == kind ==> t.events[i].disc != t.events[j].disc
  }

  /** No rule has logged two notifications for one discrepancy. */
  ghost predicate OneNoticePerRule(t: Tables) {
    forall i, j | 0 <= i < j < |t.notices| ::
      t.notices[i].rule == t.notices[j].rule ==> t.notices[i].disc != t.notices[j].disc
  }

  /** The engine has sent nothing twice, and only what has its notification. */
  ghost predicate SentOnce(t: Tables) {
    && (forall i, j :: 0 <= i < j < |t.sends| ==> t.sends[i] != t.sends[j])
    && (forall p :: p in t.sends ==> HasNotice(t, p.0, p.1))
  }

  ghost predicate TablesOk(t: Tables) {
    && Sequenced(t) && UniqueExternal(t) && ResolvedIffClosed(t)
    && AtMostOne(t, EvReceived) && AtMostOne(t, EvEscalated) && AtMostOne(t, EvAutoClosed)
    && OneNoticePerRule(t) && SentOnce(t)
  }

  /** What the engine's checks of the first pending candidate still guarantee. */
  ghost predicate EngineOk(t: Tables, e: Engine) {
    e.Working? ==>
      && (forall i :: 0 <= i < |e.pending| ==> e.pending[i].id in t.discs)
      && (forall i, j :: 0 <= i < j < |e.pending| ==> e.pending[i].id != e.pending[j].id)
      && (forall i :: 0 <= i < |e.pending| && (i > 0 || e.stage != Written) ==> NotAutoClosed(t, e.pending[i].id))
      && (e.pending != [] && e.stage != Start ==>
            if e.rule.action == Notify then NotifyOk(t, e.rule, e.pending[0].id, e.stage)
            else
              && !HasEvent(t, e.pending[0].id, EffectKind(e.rule.action))
              && ValidTransition(e.pending[0].row.status, Target(e.rule.action)))
  }

  /** Nobody but the engine auto-closes, and it does not come back to a candidate. */
  predicate NotAutoClosed(t: Tables, id: int) {
    id in t.discs ==> t.discs[id].status != AutoClosed
  }

  ghost predicate NotifyOk(t: Tables, r: Rule, id: int, stage: Stage) {
    && stage != Ready && stage != Written
    && (stage == Cleared ==> !HasNotice(t, r.id, id))
    && (stage.Logged? ==> HasNotice(t, r.id, id) && (r.id, id) !in t.sends)
  }

  /** A handler that created a row has not logged it yet; it acknowledges only what is stored,
      and terminates exactly the exhausted messages. */
  ghost predicate HandlerOk(t: Tables, h: Handler) {
    match h
    case Created(m, d) => d in t.discs && !HasEvent(t, d, EvReceived) && Ingested(t, m) && Accepted(m)
    case Settling(m, how) => (how == Ack ==> Ingested(t, m)) && (how == Term <==> Exhausted(m))
    case Finished(m, how) => (how == Ack ==> Ingested(t, m)) && (how == Term <==> Exhausted(m))
    case _ => Accepted(h.msg)
  }

  /** No two handlers are between creating and logging the same row. */
  ghost predicate HandlersOk(t: Tables, hs: map<int, Handler>) {
    && (forall h :: h in hs ==> HandlerOk(t, hs[h]))
    && (forall h, k | h in hs && k in hs && h != k :: hs[h].Created? && hs[k].Created? ==> hs[h].id != hs[k].id)
  }

  ghost predicate Inv(w: World) {
    TablesOk(w.tables) && EngineOk(w.tables, w.engine) && HandlersOk(w.tables, w.handlers)
  }

  // ---------------------------------------------------------------- single calls

  /** Rows keep what identifies them; events and notices only accumulate. */
  ghost predicate Grows(t: Tables, t': Tables) {
    && (forall d | d in t.discs ::
          && d in t'.discs && t'.discs[d].tenant == t.discs[d].tenant
          && t'.discs[d].externalId == t.discs[d].externalId && t'.discs[d].createdAt == t.discs[d].createdAt)
    && t.events <= t'.events
    && |t.notices| <= |t'.notices|
  }

  lemma SetStatusKeeps(t: Tables, id: int, s: Status, at: Option<int>)
    requires TablesOk(t) && (at.Some? <==> Closed(s))
    ensures TablesOk(SetStatus(t, id, s, at)) && Grows(t, SetStatus(t, id, s, at))
  {
  }

  lemma SetSeverityKeeps(t: Tables, id: int, name: string)
    requires TablesOk(t)
    ensures TablesOk(SetSeverity(t, id, name)) && Grows(t, SetSeverity(t, id, name))
  {
  }

  lemma AppendKeeps(t: Tables, id: int, kind: EventKind, payload: Payload)
    requires TablesOk(t)
    requires kind in {EvReceived, EvEscalated, EvAutoClosed} ==> !HasEvent(t, id, kind)
    ensures TablesOk(Append(t, id, kind, payload)) && Grows(t, Append(t, id, kind, payload))
    ensures forall d, k :: HasEvent(Append(t, id, kind, payload), d, k) ==> HasEvent(t, d, k) || (d == id && k == kind)
  {
    hide SentOnce, HasNotice;
    AppendHas(t, id, kind, payload);
    SentFrame(t, Append(t, id, kind, payload));
  }

  lemma SentFrame(t: Tables, t': Tables)
    requires SentOnce(t) && t'.notices == t.notices && t'.sends == t.sends
    ensures SentOnce(t')
  {
  }

  lemma AppendHas(t: Tables, id: int, kind: EventKind, payload: Payload)
    ensures forall d, k :: HasEvent(Append(t, id, kind, payload), d, k) ==> HasEvent(t, d, k) || (d == id && k == kind)
  {
    var t' := Append(t, id, kind, payload);
    forall d, k | HasEvent(t', d, k) ensures HasEvent(t, d, k) || (d == id && k == kind) {
      var i :| 0 <= i < |t'.events| && t'.events[i].disc == d && t'.events[i].kind == k;
      if i < |t.events| {
        assert t.events[i] == t'.events[i];
      }
    }
  }

  lemma InsertKeeps(t: Tables, id: int, row: Disc)
    requires TablesOk(t) && row.status == Open && row.resolvedAt == None
    ensures TablesOk(Insert(t, id, row)) && Grows(t, Insert(t, id, row))
  {
  }

  lemma AddNoticeKeeps(t: Tables, rule: int, id: int)
    requires TablesOk(t) && !HasNotice(t, rule, id)
    ensures TablesOk(AddNotice(t, rule, id)) && Grows(t, AddNotice(t, rule, id))
    ensures HasNotice(AddNotice(t, rule, id), rule, id) && (rule, id) !in t.sends
  {
    var t' := AddNotice(t, rule, id);
    assert t'.notices[|t.notices|].rule == rule;
    forall p | p in t.sends ensures HasNotice(t', p.0, p.1) {
      var i :| 0 <= i < |t.notices| && t.notices[i].rule == p.0 && t.notices[i].disc == p.1;
      assert t'.notices[i] == t.notices[i];
    }
  }

  lemma SendKeeps(t: Tables, rule: int, id: int)
    requires TablesOk(t) && HasNotice(t, rule, id) && (rule, id) !in t.sends
    ensures TablesOk(t.(sends := t.sends + [(rule, id)])) && Grows(t, t.(sends := t.sends + [(rule, id)]))
  {
  }

  lemma SetNoticeKeeps(t: Tables, n: nat, s: NotifStatus, attempts: nat)
    requires TablesOk(t)
    ensures TablesOk(SetNotice(t, n, s, attempts)) && Grows(t, SetNotice(t, n, s, attempts))
    ensures forall r, d :: HasNotice(SetNotice(t, n, s, attempts), r, d) <==> HasNotice(t, r, d)
  {
    var t' := SetNotice(t, n, s, attempts);
    forall r, d ensures HasNotice(t', r, d) <==> HasNotice(t, r, d) {
      if HasNotice(t, r, d) {
        var i :| 0 <= i < |t.notices| && t.notices[i].rule == r && t.notices[i].disc == d;
        assert t'.notices[i].rule == r && t'.notices[i].disc == d;
      }
      if HasNotice(t', r, d) {
        var i :| 0 <= i < |t'.notices| && t'.notices[i].rule == r && t'.notices[i].disc == d;
        assert t.notices[i].rule == r && t.notices[i].disc == d;
      }
    }
  }

  /** The handlers' invariant survives any growth that logs no reception of theirs. */
  lemma HandlersSurvive(t: Tables, t': Tables, hs: map<int, Handler>)
    requires HandlersOk(t, hs) && Grows(t, t')
    requires forall h :: h in hs && hs[h].Created? ==> !HasEvent(t', hs[h].id, EvReceived)
    ensures HandlersOk(t', hs)
  {
    forall h | h in hs && Ingested(t, hs[h].msg) ensures Ingested(t', hs[h].msg) {
      IngestedStays(t, t', hs[h].msg);
    }
  }

  lemma IngestedStays(t: Tables, t': Tables, m: Msg)
    requires Grows(t, t') && Ingested(t, m)
    ensures Ingested(t', m)
  {
    var e := m.envelope.value;
    var d :| d in t.discs && t.discs[d].tenant == e.tenant.value && t.discs[d].externalId == e.externalId;
    assert t'.discs[d].tenant == e.tenant.value;
  }

  lemma EngineSurvives(t: Tables, t': Tables, e: Engine)
    requires EngineOk(t, e) && Grows(t, t')
    requires forall d, k :: k in {EvEscalated, EvAutoClosed} && HasEvent(t', d, k) ==> HasEvent(t, d, k)
    requires t'.sends == t.sends && forall r, d :: HasNotice(t', r, d) <==> HasNotice(t, r, d)
    requires forall d :: d in t.discs && NotAutoClosed(t, d) ==> NotAutoClosed(t', d)
    ensures EngineOk(t', e)
  {
  }

  // ---------------------------------------------------------------- the actors

  lemma CreatingKeeps(t: Tables, m: Msg, o: Outcome, id: int, now: int)
    requires TablesOk(t) && Accepted(m)
    ensures var (t', s) := HandlerStep(t, Creating(m), o, true, id, now);
      && TablesOk(t') && Grows(t, t') && t'.events == t.events && t'.notices == t.notices && t'.sends == t.sends
      && HandlerOk(t', s) && (s.Created? ==> s.id !in t.discs)
  {
    if CanInsert(t, m, id) {
      var row := NewRow(m.envelope.value, now);
      InsertKeeps(t, id, row);
      var t1 := Insert(t, id, row);
      assert t1 == t.(discs := t.discs[id := row]) by {
        assert !ExternalTaken(t, row.tenant, row.externalId);
      }
      assert t1.discs[id] == row;
      assert Ingested(t1, m);
      assert !HasEvent(t1, id, EvReceived);
    }
  }

  lemma HandlerStepKeeps(t: Tables, h: Handler, o: Outcome, active: bool, id: int, now: int)
    requires TablesOk(t) && HandlerOk(t, h)
    ensures var (t', s) := HandlerStep(t, h, o, active, id, now);
      && TablesOk(t') && Grows(t, t') && HandlerOk(t', s) && t'.notices == t.notices && t'.sends == t.sends
      && (s.Created? ==> s.id !in t.discs)
      && (forall d, k :: HasEvent(t', d, k) ==> HasEvent(t, d, k) || (k == EvReceived && h.Created? && d == h.id))
  {
    match h
    case Creating(m) => CreatingKeeps(t, m, o, id, now);
    case Created(m, d) =>
      AppendKeeps(t, d, EvReceived, Plain);
      IngestedStays(t, Append(t, d, EvReceived, Plain), m);
    case _ =>
  }

  lemma HandlerKeeps(w: World, h: int, o: Outcome, active: bool, id: int, now: int)
    requires Inv(w) && h in w.handlers
    ensures Inv(Next(w, HandlerCall(h, o, active, id, now)))
    ensures Grows(w.tables, Next(w, HandlerCall(h, o, active, id, now)).tables)
  {
    var t, hs := w.tables, w.handlers;
    var (t', s) := HandlerStep(t, hs[h], o, active, id, now);
    HandlerStepKeeps(t, hs[h], o, active, id, now);
    HandlersSurvive(t, t', hs - {h});
    EngineSurvives(t, t', w.engine);
    HandlersJoin(t', hs, h, s);
  }

  lemma HandlersJoin(t: Tables, hs: map<int, Handler>, h: int, s: Handler)
    requires HandlersOk(t, hs - {h}) && HandlerOk(t, s)
    requires s.Created? ==> forall k :: k in hs - {h} && hs[k].Created? ==> hs[k].id != s.id
    ensures HandlersOk(t, hs[h := s])
  {
    var others, all := hs - {h}, hs[h := s];
    forall k | k in all ensures HandlerOk(t, all[k]) {
      assert k == h || k in others;
    }
    forall j, k | j in all && k in all && j != k && all[j].Created? && all[k].Created? ensures all[j].id != all[k].id {
      assert j == h || j in others;
      assert k == h || k in others;
    }
  }

  lemma GrowsNot(t: Tables)
    ensures Grows(t, t)
  {
  }

  lemma SameDiscs(t: Tables, t': Tables, e: Engine)
    requires t'.discs == t.discs
    ensures forall d :: NotAutoClosed(t', d) <==> NotAutoClosed(t, d)
  {
  }

  lemma NotifyKeeps(t: Tables, e: Engine, o: Outcome, hub: SendResult)
    requires TablesOk(t) && EngineOk(t, e) && e.Working? && e.pending != [] && e.rule.action == Notify
    ensures var (t', e') := NotifyStep(t, e, o, hub);
      TablesOk(t') && Grows(t, t') && EngineOk(t', e') && t'.events == t.events
  {
    hide TablesOk, HasEvent, HasNotice, NotAutoClosed, ValidTransition, Grows;
    GrowsNot(t);
    var id := e.pending[0].id;
    assert e.stage != Start ==> NotifyOk(t, e.rule, id, e.stage);
    SameDiscs(t, NotifyStep(t, e, o, hub).0, e);
    if e.stage.Logged? {
      SendKeeps(t, e.rule.id, e.pending[0].id);
    } else if e.stage.Cleared? {
      AddNoticeKeeps(t, e.rule.id, e.pending[0].id);
    } else if e.stage.Answered? {
      SetNoticeKeeps(t, e.stage.n, AfterFirstSend(e.stage.result), 1);
    }
  }

  /** What one call of executeEscalate or executeAutoClose does to the tables, if it takes effect. */
  function ChangeEffect(t: Tables, e: Engine, now: int): Tables
    requires e.Working? && e.pending != []
  {
    ChangeStep(t, e, Done, now).0
  }

  lemma ChangeEffectKeeps(t: Tables, e: Engine, now: int)
    requires TablesOk(t) && EngineOk(t, e) && e.Working? && e.pending != [] && e.rule.action != Notify
    ensures var t' := ChangeEffect(t, e, now);
      && TablesOk(t') && Grows(t, t')
      && (forall d, k :: HasEvent(t', d, k) ==>
            HasEvent(t, d, k) || (e.stage == Written && k == EffectKind(e.rule.action) && d == e.pending[0].id))
  {
    var id, action := e.pending[0].id, e.rule.action;
    match e.stage
    case Cleared =>
      var name := if e.rule.newSeverity.Some? then e.rule.newSeverity.value else "";
      SetSeverityKeeps(t, id, name);
    case Ready =>
      SetStatusKeeps(t, id, Target(action), ClosingTime(action, now));
    case Written =>
      AppendKeeps(t, id, EffectKind(action), ByRule(e.rule.id));
    case _ =>
  }

  lemma ChangeKeeps(t: Tables, e: Engine, o: Outcome, now: int)
    requires TablesOk(t) && EngineOk(t, e) && e.Working? && e.pending != [] && e.rule.action != Notify
    ensures var (t', e') := ChangeStep(t, e, o, now);
      && TablesOk(t') && Grows(t, t') && EngineOk(t', e')
      && (forall d :: HasEvent(t', d, EvReceived) ==> HasEvent(t, d, EvReceived))
  {
    hide TablesOk, Grows, HasNotice;
    GrowsNot(t);
    ChangeEffectKeeps(t, e, now);
    var t1 := ChangeEffect(t, e, now);
    var (t', e') := ChangeStep(t, e, o, now);
    assert t' == t || t' == t1;
    assert EngineOk(t', NextCandidate(e));
  }

  lemma EngineKeeps(w: World, o: Outcome, now: int, hub: SendResult)
    requires Inv(w) && Enabled(w, EngineCall(o, now, hub))
    ensures Inv(Next(w, EngineCall(o, now, hub)))
    ensures Grows(w.tables, Next(w, EngineCall(o, now, hub)).tables)
  {
    if w.engine.rule.action == Notify {
      NotifyKeeps(w.tables, w.engine, o, hub);
    } else {
      ChangeKeeps(w.tables, w.engine, o, now);
    }
    HandlersSurvive(w.tables, Next(w, EngineCall(o, now, hub)).tables, w.handlers);
  }

  lemma ServingKeeps(w: World, q: Request, o: Outcome, now: int)
    requires Inv(w) && Enabled(w, Serving(q, o, now))
    ensures Inv(Next(w, Serving(q, o, now)))
    ensures Grows(w.tables, Next(w, Serving(q, o, now)).tables)
  {
    hide TablesOk, EngineOk, Latest;
    var t := w.tables;
    var at := if q.op.Resolve? then Some(now) else None;
    var t1 := t;
    if OpTarget(q.op).Some? {
      SetStatusKeeps(t, q.id, OpTarget(q.op).value, at);
      t1 := SetStatus(t, q.id, OpTarget(q.op).value, at);
    }
    AppendKeeps(t1, q.id, OpKind(q.op), OpPayload(q.op));
    var t' := After(o, t, Serve(t, q, now));
    HandlersSurvive(t, t', w.handlers);
    EngineSurvives(t, t', w.engine);
  }

  lemma DeliverKeeps(w: World, h: int, m: Msg)
    requires Inv(w) && h !in w.handlers
    ensures Inv(Next(w, Deliver(h, m)))
  {
    hide TablesOk, EngineOk;
    assert w.handlers - {h} == w.handlers;
    HandlersJoin(w.tables, w.handlers, h, Receive(m));
  }

  lemma RetryKeeps(w: World, n: nat, s: NotifStatus, attempts: nat)
    requires Inv(w)
    ensures Inv(Next(w, RetryUpdate(n, s, attempts))) && Grows(w.tables, Next(w, RetryUpdate(n, s, attempts)).tables)
  {
    var t' := Next(w, RetryUpdate(n, s, attempts)).tables;
    SetNoticeKeeps(w.tables, n, s, attempts);
    HandlersSurvive(w.tables, t', w.handlers);
    EngineSurvives(w.tables, t', w.engine);
  }

  lemma BurnKeeps(w: World, gap: nat)
    requires Inv(w)
    ensures Inv(Next(w, BurnSequence(gap))) && Grows(w.tables, Next(w, BurnSequence(gap)).tables)
  {
    var t' := Next(w, BurnSequence(gap)).tables;
    HandlersSurvive(w.tables, t', w.handlers);
    EngineSurvives(w.tables, t', w.engine);
  }

  lemma StepKeeps(w: World, a: Act)
    requires Inv(w)
    ensures Inv(Apply(w, a)) && Grows(w.tables, Apply(w, a).tables)
  {
    hide TablesOk, HandlersOk, ChangeStep, NotifyStep, HandlerStep, Serve;
    if Enabled(w, a) {
      match a
      case Deliver(h, m) => DeliverKeeps(w, h, m);
      case HandlerCall(h, o, active, id, now) => HandlerKeeps(w, h, o, active, id, now);
      case Serving(q, o, now) => ServingKeeps(w, q, o, now);
      case ListCandidates(r, now, list) =>
      case EngineCall(o, now, hub) => EngineKeeps(w, o, now, hub);
      case RetryUpdate(n, s, attempts) => RetryKeeps(w, n, s, attempts);
      case BurnSequence(gap) => BurnKeeps(w, gap);
    }
  }

  // ---------------------------------------------------------------- whole runs

  lemma {:induction false} RunKeeps(acts: seq<Act>)
    ensures Inv(Run(INIT, acts))
  {
    if acts != [] {
      RunKeeps(acts[..|acts| - 1]);
      StepKeeps(Run(INIT, acts[..|acts| - 1]), acts[|acts| - 1]);
    }
  }

  /** Engine effects happen at most once, however users, handlers and failures interleave. */
  lemma EngineEffectsAtMostOnce(acts: seq<Act>)
    ensures var t := Run(INIT, acts).tables;
      && AtMostOne(t, EvEscalated) && AtMostOne(t, EvAutoClosed) && OneNoticePerRule(t)
      && (forall i, j :: 0 <= i < j < |t.sends| ==> t.sends[i] != t.sends[j])
  {
    RunKeeps(acts);
  }

  /** resolved_at is set iff the status is resolved or auto_closed, stale engine writes included. */
  lemma {:induction false} ResolvedTimeMatchesStatus(acts: seq<Act>, d: int)
    requires d in Run(INIT, acts).tables.discs
    ensures var row := Run(INIT, acts).tables.discs[d];
      row.resolvedAt.Some? <==> row.status == Resolved || row.status == AutoClosed
  {
    RunKeeps(acts);
  }

  /** Ingestion is effectively once: one row and at most one received event per external id, and
      a message is acknowledged only when its row exists. */
  lemma IngestedEffectivelyOnce(acts: seq<Act>)
    ensures var w := Run(INIT, acts);
      && UniqueExternal(w.tables) && AtMostOne(w.tables, EvReceived)
      && (forall h :: h in w.handlers && w.handlers[h].Finished? && w.handlers[h].how == Ack
            ==> Ingested(w.tables, w.handlers[h].msg))
  {
    RunKeeps(acts);
  }

  /** Rows are never lost or re-identified and the ledger is append-only, between any two
      moments of a run. */
  lemma {:induction false} LedgerOnlyGrows(acts: seq<Act>, more: seq<Act>)
    ensures Grows(Run(INIT, acts).tables, Run(INIT, acts + more).tables)
  {
    if more == [] {
      assert acts + more == acts;
    } else {
      var pre := acts + more[..|more| - 1];
      LedgerOnlyGrows(acts, more[..|more| - 1]);
      RunKeeps(pre);
      StepKeeps(Run(INIT, pre), more[|more| - 1]);
      assert (acts + more)[..|acts + more| - 1] == pre;
    }
  }
}
