/** What the ledger says about a discrepancy, and when it can be trusted. */
module Replay {
  import opened Domain
  import opened Ledger
  import opened Machine
  import opened AnyRun
  import opened SerialRun

  /** The status a reader derives from the events alone: each event moves it, a note does not. */
  function Fold(log: seq<Entry>): Option<Status> {
    if log == [] then None
    else
      var named := NamedStatus(log[|log| - 1].kind);
      if named.Some? then named else Fold(log[..|log| - 1])
  }

  lemma {:induction false} FoldIsLastNamed(log: seq<Entry>)
    ensures Fold(log) == if Named(log) == [] then None else Some(Named(log)[|Named(log)| - 1])
  {
    if log != [] {
      FoldIsLastNamed(log[..|log| - 1]);
    }
  }

  /** A life climbs Rank, so it has at most four changes. */
  lemma {:induction false} LifeClimbs(h: seq<Status>, i: nat)
    requires Life(h) && i < |h|
    ensures i <= Rank(h[i])
    ensures forall j :: 0 <= j < i ==> Rank(h[j]) < Rank(h[i])
  {
    if i > 0 {
      LifeClimbs(h, i - 1);
      assert ValidTransition(h[i - 1], h[i - 1 + 1]);
    }
  }

  /** The statuses a log behind `taken` names are among them. */
  lemma {:induction false} BehindIn(log: seq<Status>, taken: seq<Status>)
    requires Behind(log, taken)
    ensures forall s :: s in log ==> s in taken
  {
    if taken != [] {
      var m := |taken| - 1;
      assert taken == taken[..m] + [taken[m]];
      if log != [] && log[|log| - 1] == taken[m] && Behind(log[..|log| - 1], taken[..m]) {
        BehindIn(log[..|log| - 1], taken[..m]);
        assert log == log[..|log| - 1] + [taken[m]];
      } else {
        BehindIn(log, taken[..m]);
      }
    }
  }

  /** A good track's log ends in the present status exactly when no event is owed and the last
      status was not missed, and it is complete exactly when none is owed and none was missed. */
  lemma GoodTells(k: Track)
    requires Good(k)
    ensures (k.log != [] && k.log[|k.log| - 1] == k.status) <==> !k.owed && !k.late
    ensures k.log == k.taken <==> !k.owed && k.missed == 0
  {
    if k.owed || k.late {
      BehindIn(k.log, Before(k));
      LifeClimbs(k.taken, |k.taken| - 1);
      assert k.status !in Before(k);
      assert k.log != [] ==> k.log[|k.log| - 1] in Before(k);
    }
    if !k.owed && k.missed == 0 {
      BehindIsShorter(k.log, k.taken);
    }
  }

  lemma {:induction false} NoneMissed(acts: seq<Act>, d: int)
    ensures Misses(acts, d) == 0 <==> forall i :: 0 <= i < |acts| ==> !Missing(Run(INIT, acts[..i]), acts[i], d)
  {
    hide Run, Missing;
    if acts != [] {
      var n := |acts| - 1;
      NoneMissed(acts[..n], d);
      assert forall i :: 0 <= i < n ==> acts[..n][..i] == acts[..i] && acts[..n][i] == acts[i];
    }
  }

  /** Replay, exactly. In a run that is serial for `d`, whatever calls fail, its status column
      equals the fold of its events if and only if no actor owes it the event of its last status
      and that event was not missed; and the events name all the statuses it took if and only if
      none is owed and no call of the run was one of the four that miss one. The statuses walk
      the lifecycle from received, in at most four changes of strictly rising rank. */
  lemma StatusIsReplayed(acts: seq<Act>, d: int)
    requires SerialFrom(INIT, acts, d) && d in Run(INIT, acts).tables.discs
    ensures var w := Run(INIT, acts);
      && (Fold(Log(w.tables.events, d)) == Some(w.tables.discs[d].status) <==> !Owed(w, d) && !LastMissed(acts, d))
      && d in w.taken && w.taken[d] != [] && w.taken[d][|w.taken[d]| - 1] == w.tables.discs[d].status
      && (NamedLog(w.tables, d) == w.taken[d] <==>
            !Owed(w, d) && forall i :: 0 <= i < |acts| ==> !Missing(Run(INIT, acts[..i]), acts[i], d))
      && Life(w.taken[d]) && |w.taken[d]| <= 5
      && (forall i, j :: 0 <= i < j < |w.taken[d]| ==> Rank(w.taken[d][i]) < Rank(w.taken[d][j]))
  {
    hide Run, SerialFrom, Inv, Fresh, Log, Named, Missing, Misses, LastMissed, Owed;
    RunTracked(acts, d);
    NoneMissed(acts, d);
    var w := Run(INIT, acts);
    var k := TrackOf(w, d, Misses(acts, d), LastMissed(acts, d));
    assert Good(k);
    GoodTells(k);
    FoldIsLastNamed(Log(w.tables.events, d));
    LifeClimbs(k.taken, |k.taken| - 1);
    forall j | 0 <= j < |k.taken| ensures forall i :: 0 <= i < j ==> Rank(k.taken[i]) < Rank(k.taken[j]) {
      LifeClimbs(k.taken, j);
    }
  }

  /** Without failed calls nothing is missed. */
  lemma {:induction false} NothingFailedNothingMissed(acts: seq<Act>, d: int)
    requires NoFailure(acts)
    ensures Misses(acts, d) == 0 && !LastMissed(acts, d)
  {
    hide Run;
    if acts != [] {
      var n := |acts| - 1;
      assert AllDone(acts[n]) && forall i :: 0 <= i < n ==> acts[..n][i] == acts[i];
      NothingFailedNothingMissed(acts[..n], d);
    }
  }

  /** A status only a user can set is replayed whatever fails. */
  lemma UserStatusIsReplayed(acts: seq<Act>, d: int)
    requires SerialFrom(INIT, acts, d) && d in Run(INIT, acts).tables.discs
    requires !MayBeMissed(Run(INIT, acts).tables.discs[d].status)
    ensures Fold(Log(Run(INIT, acts).tables.events, d)) == Some(Run(INIT, acts).tables.discs[d].status)
  {
    hide Run, SerialFrom, Inv, Fresh, Log, Misses, LastMissed, Owed;
    RunTracked(acts, d);
    assert Good(TrackOf(Run(INIT, acts), d, Misses(acts, d), LastMissed(acts, d)));
    StatusIsReplayed(acts, d);
  }

  /** The log never runs ahead. Whatever store calls fail, in a serial run the statuses named by
      a discrepancy's events are those it took, in order, with nothing left out but an initial
      open, an escalated or an auto_closed: user transitions never lack their event. */
  lemma LogNeverAhead(acts: seq<Act>, d: int)
    requires SerialFrom(INIT, acts, d) && d in Run(INIT, acts).tables.discs
    ensures var w := Run(INIT, acts);
      && d in w.taken && Life(w.taken[d]) && w.taken[d][|w.taken[d]| - 1] == w.tables.discs[d].status
      && Behind(NamedLog(w.tables, d), w.taken[d])
      && (forall s :: s in w.taken[d] && !MayBeMissed(s) ==> s in NamedLog(w.tables, d))
  {
    hide Run, SerialFrom, Inv, Fresh, Log, Named, Misses, LastMissed, Owed;
    RunTracked(acts, d);
    var k := TrackOf(Run(INIT, acts), d, Misses(acts, d), LastMissed(acts, d));
    assert Good(k);
    if k.owed {
      EventFollows(k);
    }
    BehindKeeps(k.log, k.taken);
  }

  lemma {:induction false} BehindKeeps(log: seq<Status>, taken: seq<Status>)
    requires Behind(log, taken)
    ensures forall s :: s in taken && !MayBeMissed(s) ==> s in log
  {
    if taken != [] {
      var m := |taken| - 1;
      assert taken == taken[..m] + [taken[m]];
      if log != [] && log[|log| - 1] == taken[m] && Behind(log[..|log| - 1], taken[..m]) {
        BehindKeeps(log[..|log| - 1], taken[..m]);
      } else {
        BehindKeeps(log, taken[..m]);
      }
    }
  }

  lemma {:induction false} BehindIsShorter(log: seq<Status>, taken: seq<Status>)
    requires Behind(log, taken)
    ensures |log| <= |taken| && (|log| == |taken| ==> log == taken)
  {
    if taken != [] {
      var m := |taken| - 1;
      if log != [] && log[|log| - 1] == taken[m] && Behind(log[..|log| - 1], taken[..m]) {
        BehindIsShorter(log[..|log| - 1], taken[..m]);
        assert log == log[..|log| - 1] + [log[|log| - 1]] && taken == taken[..m] + [taken[m]];
      } else {
        BehindIsShorter(log, taken[..m]);
      }
    }
  }

  // ---------------------------------------------------------------- every run

  /** The calls that write the status of `d` or log an event that names one. */
  predicate Touches(w: World, a: Act, d: int) {
    && Enabled(w, a)
    && match a
       case HandlerCall(h, o, _, id, _) =>
         && o != Refused
         && (match w.handlers[h]
             case Creating(m) => id == d && Accepted(m) && CanInsert(w.tables, m, id)
             case Created(_, id') => id' == d
             case _ => false)
       case EngineCall(o, _, _) =>
         && o != Refused && w.engine.rule.action != Notify && w.engine.pending[0].id == d
         && (w.engine.stage == Ready || w.engine.stage == Written)
       case Serving(q, o, _) => o != Refused && q.id == d && q.op != AddNote
       case _ => false
  }

  /** Such a call leaves log and status agreed: a user's transition always, an append when it
      names the present status, and an insert or an engine's write of the status never. */
  predicate Settles(w: World, a: Act, d: int)
    requires Touches(w, a, d)
  {
    match a
    case HandlerCall(h, _, _, _, _) =>
      w.handlers[h].Created? && d in w.tables.discs && w.tables.discs[d].status == Open
    case EngineCall(_, _, _) =>
      && w.engine.stage == Written
      && d in w.tables.discs && w.tables.discs[d].status == Target(w.engine.rule.action)
    case _ => true
  }

  predicate Agreed(w: World, d: int) {
    d in w.tables.discs && Fold(Log(w.tables.events, d)) == Some(w.tables.discs[d].status)
  }

  /** The last call of the run that touched `d` settled it. */
  predicate LastTouchSettled(acts: seq<Act>, d: int) {
    && acts != []
    && var pre, a := acts[..|acts| - 1], acts[|acts| - 1];
       if Touches(Run(INIT, pre), a, d) then Settles(Run(INIT, pre), a, d) else LastTouchSettled(pre, d)
  }

  lemma FoldAppend(t: Tables, id: int, kind: EventKind, payload: Payload, d: int)
    requires id in t.discs
    ensures Fold(Log(Append(t, id, kind, payload).events, d))
         == if d == id && NamedStatus(kind).Some? then NamedStatus(kind) else Fold(Log(t.events, d))
  {
    var log := Log(t.events, d);
    LogAppend(t.events, Event(t.lastSeq + 1, id, kind, payload), d);
    assert (log + [Entry(kind, payload)])[..|log|] == log && log + [] == log;
  }

  lemma HandlerTouch(w: World, a: Act, d: int)
    requires Inv(w) && Enabled(w, a) && a.HandlerCall?
    ensures Agreed(Apply(w, a), d) <==> if Touches(w, a, d) then Settles(w, a, d) else Agreed(w, d)
  {
    hide NotifyStep, ChangeStep, Serve, Log, Latest, Fold, UniqueExternal, AtMostOne, Recorded, SentOnce;
    var h := w.handlers[a.handler];
    if h.Created? {
      FoldAppend(w.tables, h.id, EvReceived, Plain, d);
    } else if Touches(w, a, d) {
      LogOfStranger(w.tables.events, d);
      FoldNothing();
    }
  }

  lemma FoldNothing()
    ensures Fold([]) == None
  {
  }

  /** What a log folds to, one of its events names. */
  lemma {:induction false} FoldIsNamed(log: seq<Entry>)
    ensures Fold(log).Some? ==> exists j :: 0 <= j < |log| && NamedStatus(log[j].kind) == Fold(log)
  {
    if log != [] {
      var n := |log| - 1;
      FoldIsNamed(log[..n]);
      assert forall j :: 0 <= j < n ==> log[..n][j] == log[j];
      assert NamedStatus(log[n].kind).Some? ==> NamedStatus(log[n].kind) == Fold(log);
    }
  }

  /** A log without the engine's event does not fold to the engine's status. */
  lemma NeverNamed(t: Tables, d: int, action: Action)
    requires !HasEvent(t, d, EffectKind(action))
    ensures Fold(Log(t.events, d)) != Some(Target(action))
  {
    hide Fold, Log;
    FoldIsNamed(Log(t.events, d));
    LogHas(t.events, d, EffectKind(action));
  }

  lemma EngineTouch(w: World, a: Act, d: int)
    requires Inv(w) && Enabled(w, a) && a.EngineCall?
    ensures Agreed(Apply(w, a), d) <==> if Touches(w, a, d) then Settles(w, a, d) else Agreed(w, d)
  {
    hide HandlerStep, Serve, Log, Latest, Fold, Recorded, TablesOk, HandlersOk, HasEvent, HasNotice, ValidTransition;
    var e := w.engine;
    if e.rule.action != Notify && e.stage == Ready {
      NeverNamed(w.tables, e.pending[0].id, e.rule.action);
    }
    FoldAppend(w.tables, e.pending[0].id, EffectKind(e.rule.action), ByRule(e.rule.id), d);
  }

  lemma UserTouch(w: World, a: Act, d: int)
    requires Enabled(w, a) && a.Serving?
    ensures Agreed(Apply(w, a), d) <==> if Touches(w, a, d) then Settles(w, a, d) else Agreed(w, d)
  {
    hide HandlerStep, NotifyStep, ChangeStep, Log, Latest, Fold, Recorded;
    var q := a.request;
    var at := if q.op.Resolve? then Some(a.now) else None;
    var t1 := if q.op == AddNote then w.tables else SetStatus(w.tables, q.id, OpTarget(q.op).value, at);
    FoldAppend(t1, q.id, OpKind(q.op), OpPayload(q.op), d);
  }

  /** Replay in every run, serial or not, whatever fails: the status column of a discrepancy
      equals the fold of its events if and only if the last call that touched it settled it. */
  lemma {:induction false} ReplayedIffSettled(acts: seq<Act>, d: int)
    ensures Agreed(Run(INIT, acts), d) <==> LastTouchSettled(acts, d)
  {
    hide Inv, Touches, Settles, Fold, Log, HandlerStep, EngineStep, Serve, Recorded;
    if acts != [] {
      var pre, a := acts[..|acts| - 1], acts[|acts| - 1];
      var w := Run(INIT, pre);
      ReplayedIffSettled(pre, d);
      RunKeeps(pre);
      if Enabled(w, a) && a.HandlerCall? {
        HandlerTouch(w, a, d);
      } else if Enabled(w, a) && a.EngineCall? {
        EngineTouch(w, a, d);
      } else if Enabled(w, a) && a.Serving? {
        UserTouch(w, a, d);
      } else {
        Untouched(w, a, d);
      }
    }
  }

  lemma Untouched(w: World, a: Act, d: int)
    requires !Enabled(w, a) || !(a.HandlerCall? || a.EngineCall? || a.Serving?)
    ensures !Touches(w, a, d) && (Agreed(Apply(w, a), d) <==> Agreed(w, d))
  {
    hide Fold, Log, Recorded;
  }

  // ---------------------------------------------------------------- why serial

  /** A handler creates row `d` from `m`, and a user acknowledges it before the handler has
      appended the received event. No call fails. */
  function Crossing(m: Msg, d: int): seq<Act>
    requires Accepted(m)
  {
    var call := HandlerCall(0, Done, true, d, 0);
    [Deliver(0, m), call, call, call,
     Serving(Request(m.envelope.value.tenant.value, d, None, Acknowledge), Done, 0), call]
  }

  lemma Prefix(acts: seq<Act>, i: nat, w: World, w': World)
    requires i < |acts| && Run(INIT, acts[..i]) == w && Apply(w, acts[i]) == w'
    ensures Run(INIT, acts[..i + 1]) == w'
  {
    assert acts[..i + 1][..i] == acts[..i];
  }

  lemma FirstHalf(m: Msg, d: int, acts: seq<Act>, row: Disc)
    requires Accepted(m) && Storable(m.envelope.value) && acts == Crossing(m, d) && row == NewRow(m.envelope.value, 0)
    ensures Run(INIT, acts[..4])
         == World(EMPTY.(discs := map[d := row]), Idle, map[0 := Created(m, d)], map[d := [Open]])
  {
    hide Log, Named;
    var w1 := World(EMPTY, Idle, map[0 := Validating(m)], map[]);
    Prefix(acts, 0, INIT, w1);
    var w2 := World(EMPTY, Idle, map[0 := Deduping(m)], map[]);
    Prefix(acts, 1, w1, w2);
    var w3 := World(EMPTY, Idle, map[0 := Creating(m)], map[]);
    Prefix(acts, 2, w2, w3);
    assert CanInsert(EMPTY, m, d);
    var w4 := World(EMPTY.(discs := map[d := row]), Idle, map[0 := Created(m, d)], map[d := [Open]]);
    Prefix(acts, 3, w3, w4);
  }

  /** A handler creates row `d` from `m`, and its append of the received event is refused. It
      acknowledges the message all the same. */
  function LostReception(m: Msg, d: int): seq<Act>
    requires Accepted(m)
  {
    var call := HandlerCall(0, Done, true, d, 0);
    [Deliver(0, m), call, call, call, HandlerCall(0, Refused, true, d, 0), call]
  }

  /** A failed call at work: a serial run that ends with the message acknowledged and finished,
      the row open, and no event about it. */
  lemma LostReceptionIsMissed(m: Msg, d: int)
    requires Accepted(m) && Storable(m.envelope.value)
    ensures var acts := LostReception(m, d); var w := Run(INIT, acts);
      && SerialFrom(INIT, acts, d) && w.handlers == map[0 := Finished(m, Ack)]
      && d in w.tables.discs && w.tables.discs[d].status == Open && Log(w.tables.events, d) == []
      && !Owed(w, d) && LastMissed(acts, d)
  {
    hide Log, Named, Run, NotifyStep, ChangeStep, LastMissed, SerialFrom;
    var acts, row := LostReception(m, d), NewRow(m.envelope.value, 0);
    assert acts[..4] == Crossing(m, d)[..4];
    FirstHalf(m, d, Crossing(m, d), row);
    var w4 := World(EMPTY.(discs := map[d := row]), Idle, map[0 := Created(m, d)], map[d := [Open]]);
    var w5 := w4.(handlers := map[0 := Settling(m, Ack)]);
    Prefix(acts, 4, w4, w5);
    Prefix(acts, 5, w5, w5.(handlers := map[0 := Finished(m, Ack)]));
    assert acts[..6] == acts;
    LogOfStranger([], d);
    NoUsers(acts, d);
    MissedAt(acts, 4, d);
  }

  /** Handlers on their own are serial. */
  lemma {:induction false} NoUsers(acts: seq<Act>, d: int)
    requires forall i :: 0 <= i < |acts| ==> acts[i].Deliver? || acts[i].HandlerCall?
    ensures SerialFrom(INIT, acts, d)
  {
    if acts != [] {
      var n := |acts| - 1;
      assert forall i :: 0 <= i < n ==> acts[..n][i] == acts[i];
      NoUsers(acts[..n], d);
    }
  }

  /** A last missed event stays the last as long as the status does. */
  lemma MissedAt(acts: seq<Act>, i: nat, d: int)
    requires |acts| == i + 2 && Missing(Run(INIT, acts[..i]), acts[i], d)
    requires TakenBy(Run(INIT, acts), d) == TakenBy(Run(INIT, acts[..i + 1]), d)
    ensures LastMissed(acts, d)
  {
    hide Missing, Apply;
    var pre := acts[..i + 1];
    assert pre[..i] == acts[..i] && pre[i] == acts[i];
    assert LastMissed(pre, d);
    assert Run(INIT, acts) == Apply(Run(INIT, pre), acts[i + 1]);
  }

  lemma SecondHalf(m: Msg, d: int, acts: seq<Act>, row: Disc, events: seq<Event>)
    requires Accepted(m) && Storable(m.envelope.value) && acts == Crossing(m, d) && row == NewRow(m.envelope.value, 0)
    requires events == [Event(1, d, EvAcknowledged, Plain), Event(2, d, EvReceived, Plain)]
    ensures Run(INIT, acts)
         == World(Tables(map[d := row.(status := Acknowledged)], events, 2, [], []), Idle,
                  map[0 := Settling(m, Ack)], map[d := [Open, Acknowledged]])
  {
    hide Log, Named, Run, NotifyStep, ChangeStep, Storable, Insert, Latest;
    FirstHalf(m, d, acts, row);
    var w4 := World(EMPTY.(discs := map[d := row]), Idle, map[0 := Created(m, d)], map[d := [Open]]);
    var q := Request(m.envelope.value.tenant.value, d, None, Acknowledge);
    var t5 := Tables(map[d := row.(status := Acknowledged)], events[..1], 1, [], []);
    assert Permitted(w4.tables, q) && Serve(w4.tables, q, 0) == t5;
    var w5 := World(t5, Idle, w4.handlers, map[d := [Open] + [Acknowledged]]);
    Prefix(acts, 4, w4, w5);
    var t6 := Tables(t5.discs, events, 2, [], []);
    assert Append(t5, d, EvReceived, Plain) == t6;
    Prefix(acts, 5, w5, World(t6, Idle, map[0 := Settling(m, Ack)], w5.taken));
    assert acts[..6] == acts && [Open] + [Acknowledged] == [Open, Acknowledged];
  }

  lemma CrossedLog(d: int)
    ensures var log := Log([Event(1, d, EvAcknowledged, Plain), Event(2, d, EvReceived, Plain)], d);
      Named(log) == [Acknowledged, Open]
  {
    var e1, e2 := Event(1, d, EvAcknowledged, Plain), Event(2, d, EvReceived, Plain);
    var log := [Entry(EvAcknowledged, Plain), Entry(EvReceived, Plain)];
    LogAppend([], e1, d);
    LogAppend([e1], e2, d);
    assert [] + [e1] == [e1] && [e1] + [e2] == [e1, e2];
    NamedAppend([], log[0]);
    NamedAppend([log[0]], log[1]);
    assert [] + [log[0]] == [log[0]] && [log[0]] + [log[1]] == log;
  }

  /** Why serial matters: this run ends with a ledger that says "open" last about an
      acknowledged discrepancy. */
  lemma CrossingRunsAhead(m: Msg, d: int)
    requires Accepted(m) && Storable(m.envelope.value)
    ensures NoFailure(Crossing(m, d)) && !SerialFrom(INIT, Crossing(m, d), d)
    ensures var w := Run(INIT, Crossing(m, d));
      && d in w.tables.discs && w.tables.discs[d].status == Acknowledged
      && Fold(Log(w.tables.events, d)) == Some(Open)
      && d in w.taken && !Behind(NamedLog(w.tables, d), w.taken[d])
  {
    hide Run, Log, Named, Life, SerialFrom;
    var events := [Event(1, d, EvAcknowledged, Plain), Event(2, d, EvReceived, Plain)];
    SecondHalf(m, d, Crossing(m, d), NewRow(m.envelope.value, 0), events);
    CrossedLog(d);
    FoldIsLastNamed(Log(events, d));
    if Behind([Acknowledged, Open], [Open, Acknowledged]) {
      BehindIsShorter([Acknowledged, Open], [Open, Acknowledged]);
    }
    if SerialFrom(INIT, Crossing(m, d), d) {
      LogNeverAhead(Crossing(m, d), d);
    }
  }
}
