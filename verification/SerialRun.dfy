/**
 What serial runs keep. A run is serial for a discrepancy when no user moves it between the
 engine's read that made it a candidate (or the insert that created it) and the end of the
 work on it. Its event log then never runs ahead of its status column, and falls behind it at
 four kinds of failed calls, counted here, and nowhere else.
*/
module SerialRun {
  import opened Domain
  import opened Ledger
  import opened Machine
  import opened AnyRun

  // ---------------------------------------------------------------- serial runs

  predicate EngineHolds(w: World, d: int) {
    w.engine.Working? && exists i :: 0 <= i < |w.engine.pending| && w.engine.pending[i].id == d
  }

  predicate HandlerHolds(w: World, d: int) {
    exists h :: h in w.handlers && w.handlers[h].Created? && w.handlers[h].id == d
  }

  /** The act leaves `d` alone while another actor is working on it. Notes are free. */
  predicate Serial(w: World, a: Act, d: int) {
    match a
    case Serving(q, _, _) => q.id == d && q.op != AddNote ==> !EngineHolds(w, d) && !HandlerHolds(w, d)
    case ListCandidates(_, _, list) => (exists i :: 0 <= i < |list| && list[i].id == d) ==> !HandlerHolds(w, d)
    case _ => true
  }

  predicate SerialFrom(w: World, acts: seq<Act>, d: int) {
    acts != [] ==> SerialFrom(w, acts[..|acts| - 1], d) && Serial(Run(w, acts[..|acts| - 1]), acts[|acts| - 1], d)
  }

  predicate AllDone(a: Act) {
    match a
    case HandlerCall(_, o, _, _, _) => o == Done
    case Serving(_, o, _) => o == Done
    case EngineCall(o, _, _) => o == Done
    case _ => true
  }

  predicate NoFailure(acts: seq<Act>) {
    forall i :: 0 <= i < |acts| ==> AllDone(acts[i])
  }

  // ---------------------------------------------------------------- missed events

  /** The actor at work on `d` has written its status, and the event that names it comes next. */
  predicate Owed(w: World, d: int) {
    HandlerHolds(w, d) || EngineOwes(w.engine, d)
  }

  predicate EngineOwes(e: Engine, d: int) {
    e.Working? && e.pending != [] && e.pending[0].id == d && e.stage == Written && e.rule.action != Notify
  }

  /** The four calls after which a status of `d` stays without its event: an insert or a status
      update that takes effect while its caller sees an error, and an append that is refused. */
  predicate Missing(w: World, a: Act, d: int) {
    && Enabled(w, a)
    && match a
       case HandlerCall(h, o, _, id, _) =>
         (match w.handlers[h]
          case Creating(m) => o == Lost && id == d && Accepted(m) && CanInsert(w.tables, m, id)
          case Created(_, id') => o == Refused && id' == d
          case _ => false)
       case EngineCall(o, _, _) =>
         && w.engine.rule.action != Notify && w.engine.pending[0].id == d
         && ((w.engine.stage == Ready && o == Lost) || (w.engine.stage == Written && o == Refused))
       case _ => false
  }

  function TakenBy(w: World, d: int): seq<Status> {
    if d in w.taken then w.taken[d] else []
  }

  /** How many of its status changes `d` has no event for, but for the one that is owed. */
  function Misses(acts: seq<Act>, d: int): nat {
    if acts == [] then 0
    else
      var pre := acts[..|acts| - 1];
      Misses(pre, d) + (if Missing(Run(INIT, pre), acts[|acts| - 1], d) then 1 else 0)
  }

  /** The last status change of `d` was missed. */
  predicate LastMissed(acts: seq<Act>, d: int) {
    && acts != []
    && var pre, a := acts[..|acts| - 1], acts[|acts| - 1];
       var w := Run(INIT, pre);
       Missing(w, a, d) || (LastMissed(pre, d) && TakenBy(Apply(w, a), d) == TakenBy(w, d))
  }

  // ---------------------------------------------------------------- log against statuses

  /** Statuses whose arrival the ledger may miss when a store call fails. */
  predicate MayBeMissed(s: Status) {
    s == Open || s == Escalated || s == AutoClosed
  }

  /** `log` is `taken` with some of the statuses that may be missed left out. */
  predicate Behind(log: seq<Status>, taken: seq<Status>) {
    if taken == [] then log == []
    else
      var m := |taken| - 1;
      || (log != [] && log[|log| - 1] == taken[m] && Behind(log[..|log| - 1], taken[..m]))
      || (MayBeMissed(taken[m]) && Behind(log, taken[..m]))
  }

  /** A walk along allowed moves that starts when the discrepancy is received. */
  ghost predicate Life(taken: seq<Status>) {
    && taken != [] && taken[0] == Open
    && forall i :: 0 <= i < |taken| - 1 ==> ValidTransition(taken[i], taken[i + 1])
  }

  lemma BothGrow(log: seq<Status>, taken: seq<Status>, s: Status)
    requires Behind(log, taken)
    ensures Behind(log + [s], taken + [s])
  {
    assert (log + [s])[..|log|] == log && (taken + [s])[..|taken|] == taken;
  }

  lemma FallsBehind(log: seq<Status>, taken: seq<Status>, s: Status)
    requires Behind(log, taken) && MayBeMissed(s)
    ensures Behind(log, taken + [s])
  {
    assert (taken + [s])[..|taken|] == taken;
  }

  lemma LifeGoesOn(taken: seq<Status>, s: Status)
    requires Life(taken) && ValidTransition(taken[|taken| - 1], s)
    ensures Life(taken + [s])
  {
    var h := taken + [s];
    forall i | 0 <= i < |h| - 1 ensures ValidTransition(h[i], h[i + 1]) {
      assert i < |taken| - 1 ==> h[i] == taken[i] && h[i + 1] == taken[i + 1];
    }
  }

  // ---------------------------------------------------------------- the invariant

  function NamedLog(t: Tables, d: int): seq<Status> {
    Named(Log(t.events, d))
  }

  /** One discrepancy's status, the statuses its events name, those it took, whether an event is
      owed for the last of them, how many were missed, and whether the last one was. */
  datatype Track = Track(
    status: Status, log: seq<Status>, taken: seq<Status>, owed: bool, missed: nat, late: bool)

  /** The taken statuses but for the last. */
  function Before(k: Track): seq<Status>
    requires k.taken != []
  {
    k.taken[..|k.taken| - 1]
  }

  ghost predicate Good(k: Track) {
    && Life(k.taken) && k.taken[|k.taken| - 1] == k.status
    && Behind(k.log, if k.owed then Before(k) else k.taken)
    && |k.log| + k.missed + (if k.owed then 1 else 0) == |k.taken|
    && (k.owed || k.late ==> MayBeMissed(k.status) && Behind(k.log, Before(k)))
    && !(k.owed && k.late)
    && (!k.owed && !k.late ==> k.log != [] && k.log[|k.log| - 1] == k.status)
  }

  ghost function TrackOf(w: World, d: int, missed: nat, late: bool): Track
    requires d in w.tables.discs && d in w.taken
  {
    Track(w.tables.discs[d].status, NamedLog(w.tables, d), w.taken[d], Owed(w, d), missed, late)
  }

  ghost predicate Tracked(w: World, d: int, missed: nat, late: bool) {
    && w.taken.Keys == w.tables.discs.Keys
    && if d in w.tables.discs then Good(TrackOf(w, d, missed, late)) else missed == 0 && !late
  }

  /** Candidate number `i` is as the engine read it, up to the work done on it. */
  ghost predicate FreshCandidate(t: Tables, e: Engine, i: nat)
    requires e.Working? && i < |e.pending|
  {
    var s := e.pending[i];
    && s.id in t.discs
    && (i > 0 || e.stage == Start ==> t.discs[s.id] == s.row)
    && (i == 0 && e.stage != Written ==> t.discs[s.id].status == s.row.status)
    && (i == 0 && e.stage == Written ==> t.discs[s.id].status == Target(e.rule.action))
  }

  /** While the engine holds `d`, it is as the engine read it, and no handler's; while a handler
      holds it, it is open. */
  ghost predicate Fresh(w: World, d: int) {
    && (EngineHolds(w, d) ==> !HandlerHolds(w, d))
    && (w.engine.Working? ==>
          forall i :: 0 <= i < |w.engine.pending| && w.engine.pending[i].id == d ==> FreshCandidate(w.tables, w.engine, i))
    && (HandlerHolds(w, d) ==> d in w.tables.discs && w.tables.discs[d].status == Open)
  }

  // ---------------------------------------------------------------- one track

  /** The status is written: its event follows, is missed, or is already in. */
  lemma StatusWritten(k: Track, s: Status)
    requires Good(k) && !k.owed && ValidTransition(k.status, s)
    ensures MayBeMissed(s) ==> Good(Track(s, k.log, k.taken + [s], true, k.missed, false))
    ensures MayBeMissed(s) ==> Good(Track(s, k.log, k.taken + [s], false, k.missed + 1, true))
    ensures Good(Track(s, k.log + [s], k.taken + [s], false, k.missed, false))
  {
    hide Life, Behind, ValidTransition;
    LifeGoesOn(k.taken, s);
    BothGrow(k.log, k.taken, s);
    if MayBeMissed(s) {
      FallsBehind(k.log, k.taken, s);
    }
    var h := k.taken + [s];
    assert h[..|h| - 1] == k.taken && h[|h| - 1] == s;
    assert Before(Track(s, k.log, h, true, k.missed, false)) == k.taken;
    assert Before(Track(s, k.log, h, false, k.missed + 1, true)) == k.taken;
  }

  /** The owed event comes in, or is missed. */
  lemma EventFollows(k: Track)
    requires Good(k) && k.owed
    ensures !k.late
    ensures Good(Track(k.status, k.log + [k.status], k.taken, false, k.missed, false))
    ensures Good(Track(k.status, k.log, k.taken, false, k.missed + 1, true))
  {
    hide Life, Behind;
    assert Before(k) + [k.status] == k.taken;
    BothGrow(k.log, Before(k), k.status);
    FallsBehind(k.log, Before(k), k.status);
  }

  lemma NewTrack()
    ensures Good(Track(Open, [], [Open], true, 0, false))
    ensures Good(Track(Open, [], [Open], false, 1, true))
  {
    assert [Open][..0] == [];
    FallsBehind([], [], Open);
    assert [] + [Open] == [Open];
  }

  // ---------------------------------------------------------------- frames

  lemma {:induction false} LogOfStranger(events: seq<Event>, d: int)
    requires forall i :: 0 <= i < |events| ==> events[i].disc != d
    ensures Log(events, d) == []
  {
    if events != [] {
      LogOfStranger(events[..|events| - 1], d);
    }
  }

  /** What appending an event does to the named logs. */
  lemma AppendNames(t: Tables, id: int, kind: EventKind, payload: Payload, d: int)
    requires id in t.discs
    ensures NamedLog(Append(t, id, kind, payload), d)
         == NamedLog(t, d) + (if d == id && NamedStatus(kind).Some? then [NamedStatus(kind).value] else [])
  {
    LogAppend(t.events, Event(t.lastSeq + 1, id, kind, payload), d);
    if d == id {
      NamedAppend(Log(t.events, d), Entry(kind, payload));
    } else {
      assert Log(t.events, d) + [] == Log(t.events, d);
    }
  }

  lemma NamedFrame(t: Tables, t': Tables, d: int)
    requires t'.events == t.events
    ensures NamedLog(t', d) == NamedLog(t, d)
  {
  }

  lemma HoldsFrame(w: World, w': World, d: int)
    requires w'.handlers == w.handlers
    ensures HandlerHolds(w', d) <==> HandlerHolds(w, d)
  {
  }

  lemma HoldsOne(w: World, h: int)
    requires h in w.handlers && w.handlers[h].Created?
    ensures HandlerHolds(w, w.handlers[h].id)
  {
  }

  /** A step of handler `h` changes only what `h` itself holds. */
  lemma HoldsOthers(w: World, w': World, h: int, d: int)
    requires h in w'.handlers && w'.handlers == w.handlers[h := w'.handlers[h]]
    requires h in w.handlers ==> !(w.handlers[h].Created? && w.handlers[h].id == d)
    requires !(w'.handlers[h].Created? && w'.handlers[h].id == d)
    ensures HandlerHolds(w', d) <==> HandlerHolds(w, d)
  {
    if k :| k in w.handlers && w.handlers[k].Created? && w.handlers[k].id == d {
      assert w'.handlers[k] == w.handlers[k];
    }
    if k :| k in w'.handlers && w'.handlers[k].Created? && w'.handlers[k].id == d {
      assert w.handlers[k] == w'.handlers[k];
    }
  }

  /** The holder of a row lets it go. */
  lemma LetsGo(w: World, w': World, h: int)
    requires HandlersOk(w.tables, w.handlers) && h in w.handlers && w.handlers[h].Created?
    requires h in w'.handlers && w'.handlers == w.handlers[h := w'.handlers[h]] && !w'.handlers[h].Created?
    ensures !HandlerHolds(w', w.handlers[h].id)
  {
    hide HandlerOk;
    assert forall k :: k in w'.handlers && k != h ==> w'.handlers[k] == w.handlers[k];
  }

  // ---------------------------------------------------------------- ingestion

  lemma HandlerTracked(w: World, a: Act, d: int, missed: nat, late: bool)
    requires Tracked(w, d, missed, late) && Inv(w) && Fresh(w, d) && Enabled(w, a) && a.HandlerCall?
    ensures var m := Missing(w, a, d);
      Tracked(Apply(w, a), d, missed + (if m then 1 else 0), m || (late && TakenBy(Apply(w, a), d) == TakenBy(w, d)))
  {
    hide Tracked, Inv, Fresh, Missing, Apply, TakenBy;
    var h := w.handlers[a.handler];
    if h.Created? && h.id == d {
      ReceivedTracked(w, a, d, missed, late);
    } else if h.Creating? && Accepted(h.msg) && CanInsert(w.tables, h.msg, a.id) && a.outcome != Refused && a.id == d {
      CreateTracked(w, a, h.msg, d, missed, late);
    } else {
      OtherHandlerTracked(w, a, d, missed, late);
    }
  }

  lemma CreateTracked(w: World, a: Act, m: Msg, d: int, missed: nat, late: bool)
    requires Tracked(w, d, missed, late) && Inv(w) && Enabled(w, a) && a.HandlerCall?
    requires w.handlers[a.handler] == Creating(m) && Accepted(m) && CanInsert(w.tables, m, a.id)
    requires a.outcome != Refused && a.id == d
    ensures var m := Missing(w, a, d);
      Tracked(Apply(w, a), d, missed + (if m then 1 else 0), m || (late && TakenBy(Apply(w, a), d) == TakenBy(w, d)))
  {
    hide NotifyStep, ChangeStep, Serve, Good, Log, Latest, UniqueExternal, AtMostOne, HandlerHolds;
    var w' := Apply(w, a);
    assert w'.tables == w.tables.(discs := w.tables.discs[d := NewRow(m.envelope.value, a.now)]);
    LogOfStranger(w.tables.events, d);
    NewTrack();
    assert !EngineOwes(w.engine, d);
    if a.outcome == Done {
      HoldsOne(w', a.handler);
    } else {
      NobodyHolds(w, d);
      HoldsOthers(w, w', a.handler, d);
    }
  }

  lemma NobodyHolds(w: World, d: int)
    requires Inv(w) && d !in w.tables.discs
    ensures !HandlerHolds(w, d)
  {
    hide TablesOk, EngineOk;
  }

  lemma ReceivedTracked(w: World, a: Act, d: int, missed: nat, late: bool)
    requires Tracked(w, d, missed, late) && Inv(w) && Fresh(w, d) && Enabled(w, a) && a.HandlerCall?
    requires w.handlers[a.handler].Created? && w.handlers[a.handler].id == d
    ensures var m := Missing(w, a, d);
      Tracked(Apply(w, a), d, missed + (if m then 1 else 0), m || (late && TakenBy(Apply(w, a), d) == TakenBy(w, d)))
  {
    hide NotifyStep, ChangeStep, Serve, Good, Log, Named, Latest, TablesOk, EngineOk, HandlerHolds;
    var w' := Apply(w, a);
    HoldsOne(w, a.handler);
    LetsGo(w, w', a.handler);
    assert !EngineOwes(w.engine, d);
    AppendNames(w.tables, d, EvReceived, Plain, d);
    EventFollows(TrackOf(w, d, missed, late));
  }

  lemma OtherHandlerTracked(w: World, a: Act, d: int, missed: nat, late: bool)
    requires Tracked(w, d, missed, late) && Inv(w) && Enabled(w, a) && a.HandlerCall?
    requires var h := w.handlers[a.handler];
      && !(h.Created? && h.id == d)
      && !(h.Creating? && Accepted(h.msg) && CanInsert(w.tables, h.msg, a.id) && a.outcome != Refused && a.id == d)
    ensures !Missing(w, a, d) && TakenBy(Apply(w, a), d) == TakenBy(w, d) && Tracked(Apply(w, a), d, missed, late)
  {
    hide NotifyStep, ChangeStep, Serve, Good, Log, Named, Latest, HandlerHolds, TablesOk, EngineOk;
    var w' := Apply(w, a);
    var h := w.handlers[a.handler];
    if h.Created? {
      AppendNames(w.tables, h.id, EvReceived, Plain, d);
    }
    NamedFrame(w.tables, w'.tables.(events := w.tables.events), d);
    assert NamedLog(w'.tables, d) == NamedLog(w.tables, d);
    assert !(w'.handlers[a.handler].Created? && w'.handlers[a.handler].id == d);
    HoldsOthers(w, w', a.handler, d);
  }

  // ---------------------------------------------------------------- the engine

  lemma EngineTracked(w: World, a: Act, d: int, missed: nat, late: bool)
    requires Tracked(w, d, missed, late) && Inv(w) && Fresh(w, d) && Enabled(w, a) && a.EngineCall?
    ensures var m := Missing(w, a, d);
      Tracked(Apply(w, a), d, missed + (if m then 1 else 0), m || (late && TakenBy(Apply(w, a), d) == TakenBy(w, d)))
  {
    hide Tracked, Inv, Fresh, Missing, Apply, TakenBy;
    var e := w.engine;
    if e.rule.action != Notify && e.pending[0].id == d && e.stage == Ready && a.outcome != Refused {
      StatusTracked(w, a, d, missed, late);
    } else if e.rule.action != Notify && e.pending[0].id == d && e.stage == Written {
      EffectTracked(w, a, d, missed, late);
    } else {
      OtherCallTracked(w, a, d, missed, late);
    }
  }

  lemma StatusTracked(w: World, a: Act, d: int, missed: nat, late: bool)
    requires Tracked(w, d, missed, late) && Inv(w) && Fresh(w, d) && Enabled(w, a) && a.EngineCall? && a.outcome != Refused
    requires w.engine.rule.action != Notify && w.engine.pending[0].id == d && w.engine.stage == Ready
    ensures var m := Missing(w, a, d);
      Tracked(Apply(w, a), d, missed + (if m then 1 else 0), m || (late && TakenBy(Apply(w, a), d) == TakenBy(w, d)))
  {
    hide HandlerStep, NotifyStep, Serve, Good, Log, Named, Latest, HandlerHolds, TablesOk, HandlersOk, HasEvent;
    var w', s := Apply(w, a), Target(w.engine.rule.action);
    assert EngineHolds(w, d) && FreshCandidate(w.tables, w.engine, 0);
    var e' := if a.outcome == Done then w.engine.(stage := Written) else NextCandidate(w.engine);
    assert w' == World(SetStatus(w.tables, d, s, ClosingTime(w.engine.rule.action, a.now)), e', w.handlers, w'.taken);
    HoldsFrame(w, w', d);
    NamedFrame(w.tables, w'.tables, d);
    NextOwesNothing(w.engine, d);
    StatusWritten(TrackOf(w, d, missed, late), s);
  }

  lemma NextOwesNothing(e: Engine, d: int)
    requires e.Working? && e.pending != []
    ensures !EngineOwes(NextCandidate(e), d)
  {
  }

  lemma EffectTracked(w: World, a: Act, d: int, missed: nat, late: bool)
    requires Tracked(w, d, missed, late) && Inv(w) && Fresh(w, d) && Enabled(w, a) && a.EngineCall?
    requires w.engine.rule.action != Notify && w.engine.pending[0].id == d && w.engine.stage == Written
    ensures var m := Missing(w, a, d);
      Tracked(Apply(w, a), d, missed + (if m then 1 else 0), m || (late && TakenBy(Apply(w, a), d) == TakenBy(w, d)))
  {
    hide HandlerStep, NotifyStep, Serve, Good, Log, Named, Latest, HandlerHolds, TablesOk, HandlersOk, HasEvent;
    var w', action := Apply(w, a), w.engine.rule.action;
    assert EngineHolds(w, d) && FreshCandidate(w.tables, w.engine, 0);
    var t' := After(a.outcome, w.tables, Append(w.tables, d, EffectKind(action), ByRule(w.engine.rule.id)));
    assert w' == World(t', NextCandidate(w.engine), w.handlers, w'.taken);
    HoldsFrame(w, w', d);
    NextOwesNothing(w.engine, d);
    var k := TrackOf(w, d, missed, late);
    EventFollows(k);
    AppendNames(w.tables, d, EffectKind(action), ByRule(w.engine.rule.id), d);
    assert NamedStatus(EffectKind(action)) == Some(k.status);
  }

  /** The engine's other calls leave the status and the named log of `d` alone. */
  lemma OtherCallTracked(w: World, a: Act, d: int, missed: nat, late: bool)
    requires Tracked(w, d, missed, late) && Inv(w) && Enabled(w, a) && a.EngineCall?
    requires !(w.engine.rule.action != Notify && w.engine.pending[0].id == d
               && ((w.engine.stage == Ready && a.outcome != Refused) || w.engine.stage == Written))
    ensures !Missing(w, a, d) && TakenBy(Apply(w, a), d) == TakenBy(w, d) && Tracked(Apply(w, a), d, missed, late)
  {
    hide HandlerStep, Serve, Good, Log, Named, Latest, HandlerHolds, TablesOk, HandlersOk, HasEvent, HasNotice;
    var w', e := Apply(w, a), w.engine;
    HoldsFrame(w, w', d);
    AppendNames(w.tables, e.pending[0].id, EffectKind(e.rule.action), ByRule(e.rule.id), d);
    assert w'.tables.events == w.tables.events
        || w'.tables.events == Append(w.tables, e.pending[0].id, EffectKind(e.rule.action), ByRule(e.rule.id)).events;
    SameNames(w.tables, w'.tables, e.pending[0].id, EffectKind(e.rule.action), ByRule(e.rule.id), d);
  }

  lemma SameNames(t: Tables, t': Tables, id: int, kind: EventKind, payload: Payload, d: int)
    requires id in t.discs
    requires t'.events == t.events || (d != id && t'.events == Append(t, id, kind, payload).events)
    ensures NamedLog(t', d) == NamedLog(t, d)
  {
    AppendNames(t, id, kind, payload, d);
  }

  // ---------------------------------------------------------------- users

  lemma ServingTracked(w: World, a: Act, d: int, missed: nat, late: bool)
    requires Tracked(w, d, missed, late) && Enabled(w, a) && a.Serving? && Serial(w, a, d)
    ensures !Missing(w, a, d)
    ensures Tracked(Apply(w, a), d, missed, late && TakenBy(Apply(w, a), d) == TakenBy(w, d))
  {
    hide HandlerStep, NotifyStep, ChangeStep, Good, Log, Named, Latest, NamedLog, HandlerHolds;
    var w', q := Apply(w, a), a.request;
    HoldsFrame(w, w', d);
    if a.outcome == Refused {
      NamedFrame(w.tables, w'.tables, d);
    } else {
      var at := if q.op.Resolve? then Some(a.now) else None;
      var t1 := if q.op == AddNote then w.tables else SetStatus(w.tables, q.id, OpTarget(q.op).value, at);
      assert w' == World(Append(t1, q.id, OpKind(q.op), OpPayload(q.op)), w.engine, w.handlers, w'.taken);
      NamedFrame(w.tables, t1, d);
      AppendNames(t1, q.id, OpKind(q.op), OpPayload(q.op), d);
      if q.op != AddNote && q.id == d {
        assert EngineOwes(w.engine, d) ==> EngineHolds(w, d);
        StatusWritten(TrackOf(w, d, missed, late), OpTarget(q.op).value);
      } else {
        assert NamedLog(w.tables, d) + [] == NamedLog(w.tables, d);
      }
    }
  }

  // ---------------------------------------------------------------- tracks through one step

  /** Every step of a serial run keeps the track of `d` good, missed events counted. */
  lemma StepTracked(w: World, a: Act, d: int, missed: nat, late: bool)
    requires Tracked(w, d, missed, late) && Inv(w) && Fresh(w, d) && Serial(w, a, d)
    ensures var m := Missing(w, a, d);
      Tracked(Apply(w, a), d, missed + (if m then 1 else 0), m || (late && TakenBy(Apply(w, a), d) == TakenBy(w, d)))
  {
    hide Good, Inv, Log, Named, Latest, HandlerHolds, EngineStep, HandlerStep, Serve;
    if Enabled(w, a) {
      match a
      case HandlerCall(_, _, _, _, _) => HandlerTracked(w, a, d, missed, late);
      case EngineCall(_, _, _) => EngineTracked(w, a, d, missed, late);
      case Serving(_, _, _) => ServingTracked(w, a, d, missed, late);
      case Deliver(h, m) =>
        HoldsOthers(w, Apply(w, a), h, d);
        NamedFrame(w.tables, Apply(w, a).tables, d);
      case _ =>
        HoldsFrame(w, Apply(w, a), d);
        NamedFrame(w.tables, Apply(w, a).tables, d);
    }
  }

  // ---------------------------------------------------------------- freshness through one step

  lemma HandlerFresh(w: World, a: Act, d: int)
    requires Inv(w) && Fresh(w, d) && Enabled(w, a) && a.HandlerCall?
    ensures Fresh(Apply(w, a), d)
  {
    hide NotifyStep, ChangeStep, Serve, Log, Named, Latest, TablesOk, HandlerHolds;
    var w', h := Apply(w, a), w.handlers[a.handler];
    HandlerStepKeeps(w.tables, h, a.outcome, a.active, a.id, a.now);
    var s := w'.handlers[a.handler];
    assert forall c :: c in w.tables.discs ==> w'.tables.discs[c] == w.tables.discs[c];
    if h.Created? && h.id == d {
      HoldsOne(w, a.handler);
    } else if !(s.Created? && s.id == d) {
      HoldsOthers(w, w', a.handler, d);
    }
  }

  /** What one engine call can do to the engine and to the row it works on. */
  ghost predicate Moves(t: Tables, e: Engine, t': Tables, e': Engine)
    requires e.Working? && e.pending != []
  {
    var id := e.pending[0].id;
    && t'.discs.Keys == t.discs.Keys && id in t.discs
    && (forall c :: c in t.discs && c != id ==> t'.discs[c] == t.discs[c])
    && (e' == NextCandidate(e)
        || (&& e'.Working? && e'.rule == e.rule && e'.pending == e.pending && e'.stage != Start
            && (e'.stage == Written ==> t'.discs[id].status == Target(e.rule.action))
            && (e'.stage != Written ==> t'.discs[id].status == t.discs[id].status && e.stage != Written)))
  }

  lemma EngineMoves(w: World, o: Outcome, now: int, hub: SendResult)
    requires EngineOk(w.tables, w.engine) && w.engine.Working? && w.engine.pending != []
    ensures var (t', e') := EngineStep(w.tables, w.engine, o, now, hub); Moves(w.tables, w.engine, t', e')
  {
    hide HandlerHolds, HasEvent, HasNotice;
  }

  lemma EngineFresh(w: World, a: Act, d: int)
    requires Inv(w) && Fresh(w, d) && Enabled(w, a) && a.EngineCall?
    ensures Fresh(Apply(w, a), d)
  {
    hide EngineStep, HandlerStep, Serve, Log, Named, Latest, HandlerHolds, Recorded, ValidTransition, TablesOk, HandlersOk;
    var w', e := Apply(w, a), w.engine;
    EngineMoves(w, a.outcome, a.now, a.hub);
    HoldsFrame(w, w', d);
    assert w'.engine == NextCandidate(e) ==> forall i :: 0 <= i < |w'.engine.pending| ==> w'.engine.pending[i] == e.pending[i + 1];
    assert EngineHolds(w', d) ==> EngineHolds(w, d);
    if e.pending[0].id == d {
      assert EngineHolds(w, d) && FreshCandidate(w.tables, e, 0);
    }
  }

  lemma ServingFresh(w: World, a: Act, d: int)
    requires Fresh(w, d) && Enabled(w, a) && Serial(w, a, d) && a.Serving?
    ensures Fresh(Apply(w, a), d)
  {
    hide NotifyStep, ChangeStep, HandlerStep, Log, Named, Latest, HandlerHolds;
    var w' := Apply(w, a);
    HoldsFrame(w, w', d);
    assert (d != a.request.id || a.request.op == AddNote) && d in w.tables.discs ==>
      w'.tables.discs[d] == w.tables.discs[d];
    assert EngineHolds(w', d) <==> EngineHolds(w, d);
  }

  lemma StepFresh(w: World, a: Act, d: int)
    requires Inv(w) && Fresh(w, d) && Serial(w, a, d)
    ensures Fresh(Apply(w, a), d)
  {
    hide Inv, Log, Named, Latest, HandlerHolds, EngineStep, HandlerStep, Serve;
    if Enabled(w, a) {
      match a
      case HandlerCall(_, _, _, _, _) => HandlerFresh(w, a, d);
      case EngineCall(_, _, _) => EngineFresh(w, a, d);
      case Serving(_, _, _) => ServingFresh(w, a, d);
      case Deliver(h, m) => HoldsOthers(w, Apply(w, a), h, d);
      case _ => HoldsFrame(w, Apply(w, a), d);
    }
  }

  // ---------------------------------------------------------------- runs

  /** In every run that is serial for `d`, its track is good and its candidate fresh. */
  lemma {:induction false} RunTracked(acts: seq<Act>, d: int)
    requires SerialFrom(INIT, acts, d)
    ensures var w := Run(INIT, acts);
      Inv(w) && Fresh(w, d) && Tracked(w, d, Misses(acts, d), LastMissed(acts, d))
  {
    hide Inv, Good, Missing, Apply;
    RunKeeps(acts);
    if acts != [] {
      var pre, a := acts[..|acts| - 1], acts[|acts| - 1];
      RunTracked(pre, d);
      StepTracked(Run(INIT, pre), a, d, Misses(pre, d), LastMissed(pre, d));
      StepFresh(Run(INIT, pre), a, d);
    }
  }
}
