/** The figures of a compliance report, counted over the rows and events it is given. */
module Report {
  import opened Domain
  import opened Ledger
  import opened Machine
  import opened AnyRun

  /** time.Time's zero value, in nanoseconds. */
  const ZERO_TIME: int := -62_135_596_800_000_000_000

  const MAX_DURATION: int := 0x7fff_ffff_ffff_ffff

  /** Time.Sub saturates. */
  function Sub(a: int, b: int): int {
    if a - b > MAX_DURATION then MAX_DURATION
    else if a - b < -MAX_DURATION - 1 then -MAX_DURATION - 1
    else a - b
  }

  datatype Data = Data(
    total: nat, byStatus: map<Status, nat>, bySeverity: map<Severity, nat>,
    totalEvents: nat, byEventType: map<EventKind, nat>, meanHours: real,
    events: seq<Event>, truncated: bool)

  function OfStatus(discs: seq<Disc>, s: Status): nat {
    if discs == [] then 0
    else OfStatus(discs[..|discs| - 1], s) + (if discs[|discs| - 1].status == s then 1 else 0)
  }

  function OfSeverity(discs: seq<Disc>, s: Severity): nat {
    if discs == [] then 0
    else OfSeverity(discs[..|discs| - 1], s) + (if discs[|discs| - 1].severity == s then 1 else 0)
  }

  function OfKind(events: seq<Event>, k: EventKind): nat {
    if events == [] then 0
    else OfKind(events[..|events| - 1], k) + (if events[|events| - 1].kind == k then 1 else 0)
  }

  function TimedIn(discs: seq<Disc>): nat {
    if discs == [] then 0
    else TimedIn(discs[..|discs| - 1]) + (if Timed(discs[|discs| - 1]) then 1 else 0)
  }

  function At<K>(m: map<K, nat>, k: K): nat {
    if k in m then m[k] else 0
  }

  predicate Timed(d: Disc) {
    d.resolvedAt.Some? && d.resolvedAt.value != ZERO_TIME
  }

  function Hours(d: Disc): (h: real)
    ensures d.resolvedAt == None ==> h == 0.0
    ensures Timed(d) && -0x8000_0000_0000_0000 <= d.resolvedAt.value - d.createdAt < 0x8000_0000_0000_0000 ==>
      h * 3_600_000_000_000.0 == (d.resolvedAt.value - d.createdAt) as real
  {
    if Timed(d) then Sub(d.resolvedAt.value, d.createdAt) as real / HOUR as real else 0.0
  }

  function SumHours(discs: seq<Disc>): real {
    if discs == [] then 0.0 else SumHours(discs[..|discs| - 1]) + Hours(discs[|discs| - 1])
  }

  /** Every map says how many rows (events) are of each kind, and the mean is taken over exactly
      the rows with a resolved time. */
  ghost predicate Tells(data: Data, discs: seq<Disc>, events: seq<Event>) {
    && data.total == |discs| && data.totalEvents == |events|
    && (forall s :: At(data.byStatus, s) == OfStatus(discs, s))
    && (forall s :: At(data.bySeverity, s) == OfSeverity(discs, s))
    && (forall k :: At(data.byEventType, k) == OfKind(events, k))
    && data.meanHours * TimedIn(discs) as real == SumHours(discs)
    && (TimedIn(discs) == 0 ==> data.meanHours == 0.0)
  }

  method CountRows(discs: seq<Disc>)
    returns (total: nat, byStatus: map<Status, nat>, bySeverity: map<Severity, nat>, hours: real, timed: nat)
    ensures total == |discs| && hours == SumHours(discs) && timed == TimedIn(discs)
    ensures forall s :: At(byStatus, s) == OfStatus(discs, s)
    ensures forall s :: At(bySeverity, s) == OfSeverity(discs, s)
  {
    total, byStatus, bySeverity, hours, timed := 0, map[], map[], 0.0, 0;
    assert discs[..0] == [];
    for i := 0 to |discs|
      invariant total == i && hours == SumHours(discs[..i]) && timed == TimedIn(discs[..i])
      invariant forall s :: At(byStatus, s) == OfStatus(discs[..i], s)
      invariant forall s :: At(bySeverity, s) == OfSeverity(discs[..i], s)
    {
      var d := discs[i];
      assert discs[..i + 1][..i] == discs[..i];
      total := total + 1;
      byStatus := byStatus[d.status := At(byStatus, d.status) + 1];
      bySeverity := bySeverity[d.severity := At(bySeverity, d.severity) + 1];
      if d.resolvedAt.Some? && d.resolvedAt.value != ZERO_TIME {
        hours := hours + Sub(d.resolvedAt.value, d.createdAt) as real / HOUR as real;
        timed := timed + 1;
      }
    }
    assert discs[..|discs|] == discs;
  }

  method CountEvents(events: seq<Event>) returns (byEventType: map<EventKind, nat>)
    ensures forall k :: At(byEventType, k) == OfKind(events, k)
  {
    byEventType := map[];
    assert events[..0] == [];
    for i := 0 to |events|
      invariant forall k :: At(byEventType, k) == OfKind(events[..i], k)
    {
      assert events[..i + 1][..i] == events[..i];
      byEventType := byEventType[events[i].kind := At(byEventType, events[i].kind) + 1];
    }
    assert events[..|events|] == events;
  }

  /** aggregateReportData. The figures are of all the events; only the list is cut, at its end. */
  method Aggregate(discs: seq<Disc>, events: seq<Event>, maxEvents: nat) returns (data: Data)
    ensures Tells(data, discs, events)
    ensures data.truncated <==> |events| > maxEvents
    ensures data.events <= events && |data.events| == if |events| > maxEvents then maxEvents else |events|
  {
    var total, byStatus, bySeverity, hours, timed := CountRows(discs);
    var mean := 0.0;
    if timed > 0 {
      mean := hours / timed as real;
    } else {
      NoneTimed(discs);
    }
    var byEventType := CountEvents(events);
    var truncated := |events| > maxEvents;
    data := Data(total, byStatus, bySeverity, |events|, byEventType, mean,
                 if truncated then events[..maxEvents] else events, truncated);
  }

  lemma {:induction false} NoneTimed(discs: seq<Disc>)
    requires TimedIn(discs) == 0
    ensures SumHours(discs) == 0.0
  {
    if discs != [] {
      NoneTimed(discs[..|discs| - 1]);
    }
  }

  // ---------------------------------------------------------------- what the figures add up to

  lemma {:induction false} StatusesAddUp(discs: seq<Disc>)
    ensures OfStatus(discs, Open) + OfStatus(discs, Acknowledged)
          + OfStatus(discs, Investigating) + OfStatus(discs, Resolved)
          + OfStatus(discs, Escalated) + OfStatus(discs, AutoClosed) == |discs|
  {
    if discs != [] {
      StatusesAddUp(discs[..|discs| - 1]);
    }
  }

  lemma {:induction false} SeveritiesAddUp(discs: seq<Disc>)
    ensures OfSeverity(discs, Low) + OfSeverity(discs, Medium)
          + OfSeverity(discs, High) + OfSeverity(discs, Critical) == |discs|
  {
    if discs != [] {
      SeveritiesAddUp(discs[..|discs| - 1]);
    }
  }

  lemma {:induction false} KindsAddUp(events: seq<Event>)
    ensures OfKind(events, EvReceived) + OfKind(events, EvAcknowledged)
          + OfKind(events, EvInvestigationStarted) + OfKind(events, EvNoteAdded)
          + OfKind(events, EvEscalated) + OfKind(events, EvResolved)
          + OfKind(events, EvAutoClosed) == |events|
  {
    if events != [] {
      KindsAddUp(events[..|events| - 1]);
    }
  }

  lemma {:induction false} TimedAreClosed(discs: seq<Disc>)
    requires forall d :: d in discs ==> (Timed(d) <==> Closed(d.status))
    ensures TimedIn(discs)
         == OfStatus(discs, Resolved) + OfStatus(discs, AutoClosed)
  {
    if discs != [] {
      var n := |discs| - 1;
      assert discs[n] in discs && forall d :: d in discs[..n] ==> d in discs;
      TimedAreClosed(discs[..n]);
    }
  }

  predicate IsRow(t: Tables, r: Disc) {
    exists d :: d in t.discs && t.discs[d] == r
  }

  lemma ReachableRowsTimed(acts: seq<Act>, discs: seq<Disc>)
    requires forall r :: r in discs ==> IsRow(Run(INIT, acts).tables, r) && r.resolvedAt != Some(ZERO_TIME)
    ensures forall r :: r in discs ==> (Timed(r) <==> Closed(r.status))
  {
    hide Run;
    forall r | r in discs ensures Timed(r) <==> Closed(r.status) {
      var d :| d in Run(INIT, acts).tables.discs && Run(INIT, acts).tables.discs[d] == r;
      ResolvedTimeMatchesStatus(acts, d);
    }
  }

  /** Conservation. The counts of a report add up to its totals. */
  lemma ReportAddsUp(data: Data, discs: seq<Disc>, events: seq<Event>)
    requires Tells(data, discs, events)
    ensures var s, v, k := data.byStatus, data.bySeverity, data.byEventType;
      && At(s, Open) + At(s, Acknowledged) + At(s, Investigating)
         + At(s, Resolved) + At(s, Escalated) + At(s, AutoClosed) == data.total
      && At(v, Low) + At(v, Medium) + At(v, High) + At(v, Critical) == data.total
      && At(k, EvReceived) + At(k, EvAcknowledged) + At(k, EvInvestigationStarted) + At(k, EvNoteAdded)
         + At(k, EvEscalated) + At(k, EvResolved) + At(k, EvAutoClosed) == data.totalEvents
  {
    hide At, OfStatus, OfSeverity, OfKind;
    StatusesAddUp(discs);
    SeveritiesAddUp(discs);
    KindsAddUp(events);
  }

  /** For rows of any reachable state, none of them stamped with the zero time, the mean is
      taken over exactly the resolved and the auto-closed ones. */
  lemma MeanOverClosed(acts: seq<Act>, data: Data, discs: seq<Disc>, events: seq<Event>)
    requires forall r :: r in discs ==> IsRow(Run(INIT, acts).tables, r) && r.resolvedAt != Some(ZERO_TIME)
    requires Tells(data, discs, events)
    ensures var n := At(data.byStatus, Resolved) + At(data.byStatus, AutoClosed);
      data.meanHours * n as real == SumHours(discs) && (n == 0 ==> data.meanHours == 0.0)
  {
    hide Run, At, OfStatus, OfSeverity, OfKind;
    ReachableRowsTimed(acts, discs);
    TimedAreClosed(discs);
  }
}
