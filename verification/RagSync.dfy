/**
 The hourly sync window: which closed discrepancies a sync hands to the feeder. The syncer is
 one more actor beside the service: it reads the clock, and later, in a query, the table as the
 service has left it by then.
*/
module RagSync {
  import opened Domain
  import opened Ledger
  import opened Machine
  import opened AnyRun
  import opened SerialRun
  import opened Replay
  import opened Locking
  import opened Closing

  // ---------------------------------------------------------------- service and syncer together

  /** `started` is the clock reading of a sync between its start and its query; `handed` counts
      what was handed to the feeder. */
  datatype State = State(world: World, lastSync: int, started: Option<int>, handed: multiset<int>, clock: int)

  datatype Step =
    | Service(act: Act)    // any act of the service
    | BeginSync            // a sync reads the clock
    | QuerySync(ok: bool)  // its query runs, and on success its rows are handed over

  datatype Timed = Timed(step: Step, time: int)

  /** The resolved time an act may write. */
  function StampOf(a: Act): Option<int> {
    match a
    case Serving(q, _, now) => if q.op.Resolve? then Some(now) else None
    case EngineCall(_, now, _) => Some(now)
    case _ => None
  }

  /** Time passes with every step, and nobody stamps a time that is still to come. */
  predicate Fits(s: State, e: Timed) {
    && e.time > s.clock
    && match e.step
       case Service(a) => StampOf(a).Some? ==> StampOf(a).value <= e.time
       case BeginSync => s.started == None
       case QuerySync(_) => s.started.Some?
  }

  /** The rows ListAllResolvedSince selects. */
  predicate ResolvedSince(d: Disc, since: int) {
    Closed(d.status) && d.resolvedAt.Some? && d.resolvedAt.value >= since
  }

  function Due(rows: map<int, Disc>, since: int): set<int> {
    set d | d in rows && ResolvedSince(rows[d], since)
  }

  function Tick(s: State, e: Timed): State {
    if !Fits(s, e) then s
    else
      var t := s.(clock := e.time);
      match e.step
      case Service(a) => t.(world := Apply(s.world, a))
      case BeginSync => t.(started := Some(e.time))
      case QuerySync(ok) =>
        if !ok then t.(started := None)
        else t.(started := None, lastSync := s.started.value,
                handed := s.handed + multiset(Due(s.world.tables.discs, s.lastSync)))
  }

  function Elapse(s: State, trace: seq<Timed>): State {
    if trace == [] then s else Tick(Elapse(s, trace[..|trace| - 1]), trace[|trace| - 1])
  }

  lemma {:induction false} ElapseConcat(s: State, a: seq<Timed>, b: seq<Timed>)
    ensures Elapse(s, a + b) == Elapse(Elapse(s, a), b)
  {
    if b == [] {
      assert a + b == a;
    } else {
      assert (a + b)[..|a + b| - 1] == a + b[..|b| - 1];
      ElapseConcat(s, a, b[..|b| - 1]);
    }
  }

  /** The service's share of a trace. */
  function ActsOf(s: State, trace: seq<Timed>): seq<Act> {
    if trace == [] then []
    else
      var pre, e := trace[..|trace| - 1], trace[|trace| - 1];
      ActsOf(s, pre) + (if e.step.Service? && Fits(Elapse(s, pre), e) then [e.step.act] else [])
  }

  function Stamp(w: World, d: int): Option<int> {
    if d in w.tables.discs then w.tables.discs[d].resolvedAt else None
  }

  /** A syncer that starts after the service has run through `before`. */
  ghost predicate Begins(s: State, before: seq<Act>) {
    && s.world == Run(INIT, before) && s.lastSync <= s.clock && s.started == None && s.handed == multiset{}
    && forall d :: Stamp(s.world, d).Some? ==> Stamp(s.world, d).value <= s.clock
  }

  lemma WorldTicks(s: State, e: Timed)
    ensures Tick(s, e).world == if e.step.Service? && Fits(s, e) then Apply(s.world, e.step.act) else s.world
  {
    hide Apply, Fits, Due;
  }

  lemma {:induction false} WorldElapses(s: State, before: seq<Act>, trace: seq<Timed>)
    requires Begins(s, before)
    ensures Elapse(s, trace).world == Run(INIT, before + ActsOf(s, trace))
  {
    hide Fits, Apply, Tick, Run;
    if trace == [] {
      assert before + [] == before;
    } else {
      var pre, e := trace[..|trace| - 1], trace[|trace| - 1];
      WorldElapses(s, before, pre);
      WorldTicks(Elapse(s, pre), e);
      if e.step.Service? && Fits(Elapse(s, pre), e) {
        RunAppend(INIT, before + ActsOf(s, pre), e.step.act);
        assert before + ActsOf(s, trace) == before + ActsOf(s, pre) + [e.step.act];
      } else {
        assert before + ActsOf(s, trace) == before + ActsOf(s, pre);
      }
    }
  }

  // ---------------------------------------------------------------- the syncer as the code runs it

  /** The row is resolved or auto-closed, at or after `since`. */
  predicate ClosedSince(rows: map<int, Disc>, d: int, since: int) {
    && d in rows && (rows[d].status == Resolved || rows[d].status == AutoClosed)
    && rows[d].resolvedAt.Some? && rows[d].resolvedAt.value >= since
  }

  lemma DueIsClosed(rows: map<int, Disc>, since: int)
    ensures forall d :: multiset(Due(rows, since))[d] == if ClosedSince(rows, d, since) then 1 else 0
  {
  }

  lemma OneMore(all: set<int>, rest: set<int>, d: int)
    requires d in rest && rest <= all
    ensures multiset(all - (rest - {d})) == multiset(all - rest) + multiset{d}
  {
    assert all - (rest - {d}) == (all - rest) + {d};
  }

  lemma {:induction false} ServiceOnly(s: State, trace: seq<Timed>)
    requires forall i :: 0 <= i < |trace| ==> trace[i].step.Service?
    ensures var t := Elapse(s, trace); t.lastSync == s.lastSync && t.started == s.started && t.handed == s.handed
  {
    hide Apply;
    if trace != [] {
      var n := |trace| - 1;
      assert trace[n].step.Service? && forall i :: 0 <= i < n ==> trace[..n][i] == trace[i];
      ServiceOnly(s, trace[..n]);
    }
  }

  class RagSyncer {
    var lastSync: int
    /** Everything handed to the feeder so far. */
    var handed: seq<int>

    constructor (now: int)
      ensures lastSync == now - 86_400_000_000_000 && handed == []
    {
      lastSync, handed := now - 24 * HOUR, [];
    }

    /** Between two syncs the syncer's fields are those of the state. */
    ghost predicate Agrees(s: State)
      reads this
    {
      s.lastSync == lastSync && s.handed == multiset(handed) && s.started == None
    }

    /** One pass: `now` is read, the service goes on, and then the query meets `rows`. It is one
        BeginSync and one QuerySync around whatever the service does in between. A failed query
        changes nothing; a successful one hands over each selected row once. */
    method RunSync(rows: map<int, Disc>, now: int, queryOk: bool, ghost s: State, ghost meanwhile: seq<Timed>, ghost later: int)
      requires Agrees(s) && now > s.clock && forall i :: 0 <= i < |meanwhile| ==> meanwhile[i].step.Service?
      requires var t := Elapse(s, [Timed(BeginSync, now)] + meanwhile);
        later > t.clock && rows == t.world.tables.discs
      modifies this
      ensures !queryOk ==> lastSync == old(lastSync) && handed == old(handed)
      ensures queryOk ==> lastSync == now
      ensures queryOk ==> forall d ::
        multiset(handed)[d] == multiset(old(handed))[d] + (if ClosedSince(rows, d, old(lastSync)) then 1 else 0)
      ensures Agrees(Elapse(s, [Timed(BeginSync, now)] + meanwhile + [Timed(QuerySync(queryOk), later)]))
    {
      hide Due, Elapse;
      SyncPasses(s, now, meanwhile, queryOk, later);
      var since := lastSync;
      if !queryOk {
        return;
      }
      var rest := Due(rows, since);
      ghost var all := rest;
      while rest != {}
        invariant rest <= all && multiset(handed) == multiset(old(handed)) + multiset(all - rest)
        decreases rest
      {
        var d := AnyOf(rest);
        OneMore(all, rest, d);
        rest := rest - {d};
        handed := handed + [d];
      }
      assert all - rest == all;
      DueIsClosed(rows, since);
      lastSync := now;
    }
  }

  lemma SyncPasses(s: State, now: int, meanwhile: seq<Timed>, ok: bool, later: int)
    requires s.started == None && now > s.clock && forall i :: 0 <= i < |meanwhile| ==> meanwhile[i].step.Service?
    requires later > Elapse(s, [Timed(BeginSync, now)] + meanwhile).clock
    ensures var begun := [Timed(BeginSync, now)] + meanwhile;
      var t, t' := Elapse(s, begun), Elapse(s, begun + [Timed(QuerySync(ok), later)]);
      && t'.started == None
      && t'.lastSync == (if ok then now else s.lastSync)
      && t'.handed == if ok then s.handed + multiset(Due(t.world.tables.discs, s.lastSync)) else s.handed
  {
    hide Due;
    var begin, query := Timed(BeginSync, now), Timed(QuerySync(ok), later);
    ElapseConcat(s, [begin], meanwhile);
    assert [begin][..0] == [];
    assert Elapse(s, [begin]) == Tick(s, begin);
    ServiceOnly(Tick(s, begin), meanwhile);
    var begun := [begin] + meanwhile;
    assert (begun + [query])[..|begun|] == begun;
  }

  // ---------------------------------------------------------------- one discrepancy

  /** How often `d` has been closed: how often its resolved time has become a new one. */
  function Closings(s: State, trace: seq<Timed>, d: int): nat {
    if trace == [] then (if Stamp(s.world, d).Some? then 1 else 0)
    else
      var pre := trace[..|trace| - 1];
      var old', new' := Stamp(Elapse(s, pre).world, d), Stamp(Elapse(s, trace).world, d);
      Closings(s, pre, d) + (if new'.Some? && new' != old' then 1 else 0)
  }

  /** How often it was handed over since its resolved time last changed. */
  function Recent(s: State, trace: seq<Timed>, d: int): int {
    if trace == [] then 0
    else
      var pre := trace[..|trace| - 1];
      var t, t' := Elapse(s, pre), Elapse(s, trace);
      if Stamp(t'.world, d) != Stamp(t.world, d) then 0 else Recent(s, pre, d) + t'.handed[d] - t.handed[d]
  }

  /** What is known of one discrepancy at any time; `n` and `k` are its closings, and its
      hand-overs since the last of them. A second hand-over is the last one of a closing. */
  ghost predicate Window(s: State, d: int, n: nat, k: int) {
    && s.lastSync <= s.clock && (s.started.Some? ==> s.lastSync < s.started.value <= s.clock)
    && match Stamp(s.world, d)
       case None => k == 0 && s.handed[d] <= 2 * n
       case Some(x) =>
         && x <= s.clock && n >= 1 && 0 <= k <= 2 && s.handed[d] <= 2 * (n - 1) + k
         && (k >= 1 && s.started.Some? ==> s.started.value > x)
         && (k == 2 ==> s.lastSync > x)
  }

  /** An act that gives a row a new resolved time writes its own stamp. */
  lemma StampsAreOwn(w: World, a: Act, d: int)
    requires Inv(w)
    ensures var x := Stamp(Apply(w, a), d); x.Some? && x != Stamp(w, d) ==> x == StampOf(a)
  {
    hide TablesOk, HandlersOk, Latest, ValidTransition, ParseSeverity, HasEvent, HasNotice, Recorded, Receive, ExternalTaken;
  }

  lemma {:induction false} DueIffStamped(w: World, d: int, since: int)
    requires Inv(w)
    ensures d in Due(w.tables.discs, since) <==> Stamp(w, d).Some? && Stamp(w, d).value >= since
  {
  }

  lemma TickKeeps(s: State, e: Timed, d: int, n: nat, k: int)
    requires Inv(s.world) && Window(s, d, n, k)
    ensures var t := Tick(s, e); var x, y := Stamp(s.world, d), Stamp(t.world, d);
      Window(t, d, n + (if y.Some? && y != x then 1 else 0), if y != x then 0 else k + t.handed[d] - s.handed[d])
  {
    hide Inv, Apply, Due;
    if Fits(s, e) {
      if e.step.Service? {
        StampsAreOwn(s.world, e.step.act, d);
      } else if e.step == QuerySync(true) {
        DueIffStamped(s.world, d, s.lastSync);
        assert Tick(s, e).handed[d] == s.handed[d] + (if d in Due(s.world.tables.discs, s.lastSync) then 1 else 0);
      }
    }
  }

  lemma {:induction false} WindowHolds(s: State, before: seq<Act>, trace: seq<Timed>, d: int)
    requires Begins(s, before)
    ensures Inv(Elapse(s, trace).world) && Window(Elapse(s, trace), d, Closings(s, trace, d), Recent(s, trace, d))
  {
    hide Inv, Run, Tick;
    WorldElapses(s, before, trace);
    RunKeeps(before + ActsOf(s, trace));
    if trace != [] {
      var pre := trace[..|trace| - 1];
      WindowHolds(s, before, pre, d);
      TickKeeps(Elapse(s, pre), trace[|trace| - 1], d, Closings(s, pre, d), Recent(s, pre, d));
    }
  }

  /** In every run, whatever actors and failures interleave, a discrepancy is handed over at most
      twice for each time it is closed. */
  lemma HandedTwicePerClosing(s: State, before: seq<Act>, trace: seq<Timed>, d: int)
    requires Begins(s, before)
    ensures Elapse(s, trace).handed[d] <= 2 * Closings(s, trace, d)
  {
    WindowHolds(s, before, trace, d);
  }

  // ---------------------------------------------------------------- serial service

  ghost predicate SerialFor(before: seq<Act>, s: State, trace: seq<Timed>, d: int) {
    SerialFrom(INIT, before + ActsOf(s, trace), d)
  }

  /** Serial for a trace, serial for what led there. */
  lemma SerialBefore(before: seq<Act>, s: State, trace: seq<Timed>, d: int)
    requires trace != [] && SerialFor(before, s, trace, d)
    ensures SerialFor(before, s, trace[..|trace| - 1], d)
  {
    hide Fits;
    var pre, e := trace[..|trace| - 1], trace[|trace| - 1];
    if e.step.Service? && Fits(Elapse(s, pre), e) {
      var all := before + ActsOf(s, trace);
      assert all[..|all| - 1] == before + ActsOf(s, pre);
    } else {
      assert ActsOf(s, trace) == ActsOf(s, pre);
    }
  }

  /** The one step that matters: a resolved time, once there, stays. */
  lemma StampStays(s: State, before: seq<Act>, trace: seq<Timed>, d: int)
    requires Begins(s, before) && trace != [] && SerialFor(before, s, trace, d)
    requires Stamp(Elapse(s, trace[..|trace| - 1]).world, d).Some?
    ensures Stamp(Elapse(s, trace).world, d) == Stamp(Elapse(s, trace[..|trace| - 1]).world, d)
  {
    hide Run, Apply, Fresh, Tracked, Misses, LastMissed, Overwrites, HandlersOk, EngineOk;
    var pre := trace[..|trace| - 1];
    SerialBefore(before, s, trace, d);
    WorldElapses(s, before, pre);
    RunTracked(before + ActsOf(s, pre), d);
    var w, e := Elapse(s, pre).world, trace[|trace| - 1];
    if e.step.Service? {
      FreshSparesClosed(w, e.step.act, d);
      ClosedRowChanges(w, e.step.act, d);
    }
  }

  lemma {:induction false} SerialClosesOnce(s: State, before: seq<Act>, trace: seq<Timed>, d: int)
    requires Begins(s, before) && SerialFor(before, s, trace, d)
    ensures Closings(s, trace, d) == if Stamp(Elapse(s, trace).world, d).Some? then 1 else 0
  {
    hide Begins, SerialFor, Tick;
    if trace != [] {
      SerialBefore(before, s, trace, d);
      SerialClosesOnce(s, before, trace[..|trace| - 1], d);
      if Stamp(Elapse(s, trace[..|trace| - 1]).world, d).Some? {
        StampStays(s, before, trace, d);
      }
    }
  }

  /** When the service is serial for it, a discrepancy is handed over at most twice, and never
      before it is closed. */
  lemma HandedAtMostTwice(s: State, before: seq<Act>, trace: seq<Timed>, d: int)
    requires Begins(s, before) && SerialFor(before, s, trace, d)
    ensures Elapse(s, trace).handed[d] <= if Stamp(Elapse(s, trace).world, d).Some? then 2 else 0
  {
    SerialClosesOnce(s, before, trace, d);
    HandedTwicePerClosing(s, before, trace, d);
  }

  // ---------------------------------------------------------------- no gaps

  function Moment(s: State, trace: seq<Timed>, k: nat): State
    requires k <= |trace|
  {
    Elapse(s, trace[..k])
  }

  predicate Succeeds(s: State, trace: seq<Timed>, k: nat)
    requires k < |trace|
  {
    trace[k].step == QuerySync(true) && Fits(Moment(s, trace, k), trace[k])
  }

  lemma MomentNext(s: State, trace: seq<Timed>, k: nat)
    requires k < |trace|
    ensures Moment(s, trace, k + 1) == Tick(Moment(s, trace, k), trace[k])
  {
    assert trace[..k + 1][..k] == trace[..k];
  }

  lemma {:induction false} SerialUntil(before: seq<Act>, s: State, trace: seq<Timed>, k: nat, d: int)
    requires k <= |trace| && SerialFor(before, s, trace, d)
    ensures SerialFor(before, s, trace[..k], d)
    decreases |trace|
  {
    if k < |trace| {
      SerialBefore(before, s, trace, d);
      SerialUntil(before, s, trace[..|trace| - 1], k, d);
      assert trace[..|trace| - 1][..k] == trace[..k];
    } else {
      assert trace[..k] == trace;
    }
  }

  /** A resolved time, once there, stays to the end. */
  lemma {:induction false} StampLasts(s: State, before: seq<Act>, trace: seq<Timed>, k: nat, l: nat, d: int)
    requires Begins(s, before) && SerialFor(before, s, trace, d) && k <= l <= |trace|
    requires Stamp(Moment(s, trace, k).world, d).Some?
    ensures Stamp(Moment(s, trace, l).world, d) == Stamp(Moment(s, trace, k).world, d)
    decreases l
  {
    hide Begins, SerialFor, Elapse;
    if k < l {
      StampLasts(s, before, trace, k, l - 1, d);
      SerialUntil(before, s, trace, l, d);
      assert trace[..l][..l - 1] == trace[..l - 1];
      StampStays(s, before, trace[..l], d);
    }
  }

  /** Until a query succeeds the window does not move, and nothing is handed over. */
  lemma {:induction false} WindowWaits(s: State, trace: seq<Timed>, k: nat, l: nat)
    requires k <= l <= |trace| && forall m :: k <= m < l ==> !Succeeds(s, trace, m)
    ensures Moment(s, trace, l).lastSync == Moment(s, trace, k).lastSync
    ensures Moment(s, trace, l).handed == Moment(s, trace, k).handed
    decreases l
  {
    hide Elapse, Apply;
    if k < l {
      WindowWaits(s, trace, k, l - 1);
      MomentNext(s, trace, l - 1);
      assert !Succeeds(s, trace, l - 1);
    }
  }

  lemma {:induction false} WindowAdvances(s: State, before: seq<Act>, trace: seq<Timed>, k: nat, l: nat)
    requires Begins(s, before) && k <= l <= |trace|
    ensures Moment(s, trace, k).lastSync <= Moment(s, trace, l).lastSync
    decreases l
  {
    hide Begins, Elapse, Apply;
    if k < l {
      WindowAdvances(s, before, trace, k, l - 1);
      MomentNext(s, trace, l - 1);
      WindowHolds(s, before, trace[..l - 1], 0);
    }
  }

  /** Which closings the first query that succeeds after them hands over, in any run: those whose
      resolved time still stands at the query and is not older than the window's start was when
      the discrepancy was closed. */
  lemma FirstQueryHandsOver(s: State, before: seq<Act>, trace: seq<Timed>, c: nat, k: nat, d: int)
    requires Begins(s, before) && c < k < |trace| && trace[c].step.Service?
    requires Succeeds(s, trace, k) && forall m :: c < m < k ==> !Succeeds(s, trace, m)
    ensures var x := Stamp(Moment(s, trace, k).world, d);
      Moment(s, trace, k + 1).handed[d]
      == Moment(s, trace, c).handed[d] + (if x.Some? && x.value >= Moment(s, trace, c).lastSync then 1 else 0)
  {
    hide Begins, Elapse, Apply, Inv, Due;
    MomentNext(s, trace, c);
    WindowWaits(s, trace, c + 1, k);
    MomentNext(s, trace, k);
    WindowHolds(s, before, trace[..k], d);
    var t := Moment(s, trace, k);
    DueIffStamped(t.world, d, t.lastSync);
    assert Moment(s, trace, k + 1).handed[d] == t.handed[d] + (if d in Due(t.world.tables.discs, t.lastSync) then 1 else 0);
  }

  /** A resolved time the window has passed is passed for good. */
  lemma {:induction false} PassedForGood(s: State, before: seq<Act>, trace: seq<Timed>, k: nat, l: nat, d: int)
    requires Begins(s, before) && SerialFor(before, s, trace, d) && k <= l <= |trace|
    requires var t := Moment(s, trace, k); Stamp(t.world, d).Some? && Stamp(t.world, d).value < t.lastSync
    ensures Moment(s, trace, l).handed[d] == Moment(s, trace, k).handed[d]
    decreases l
  {
    hide Begins, SerialFor, Elapse, Apply, Inv, Due;
    if k < l {
      PassedForGood(s, before, trace, k, l - 1, d);
      StampLasts(s, before, trace, k, l - 1, d);
      WindowAdvances(s, before, trace, k, l - 1);
      MomentNext(s, trace, l - 1);
      WindowHolds(s, before, trace[..l - 1], d);
      var t := Moment(s, trace, l - 1);
      DueIffStamped(t.world, d, t.lastSync);
      assert Moment(s, trace, l).handed[d] == t.handed[d];
    }
  }

  /** The discrepancy is closed at step `c`. */
  predicate ClosesAt(s: State, trace: seq<Timed>, c: nat, d: int)
    requires c < |trace|
  {
    && trace[c].step.Service?
    && Stamp(Moment(s, trace, c).world, d) == None && Stamp(Moment(s, trace, c + 1).world, d).Some?
  }

  /** When nothing is lost. With a service that is serial for `d`, a `d` closed at step `c` is
      handed over by the first query that succeeds after it if and only if its resolved time is
      not older than the window's start at the moment it is closed; if it is older, no later sync
      ever hands it over. */
  lemma HandedIffStampedInTime(s: State, before: seq<Act>, trace: seq<Timed>, c: nat, k: nat, d: int)
    requires Begins(s, before) && SerialFor(before, s, trace, d) && c < k < |trace| && ClosesAt(s, trace, c, d)
    requires Succeeds(s, trace, k) && forall m :: c < m < k ==> !Succeeds(s, trace, m)
    ensures var x := Stamp(Moment(s, trace, c + 1).world, d).value;
      && Moment(s, trace, k).handed[d] == 0
      && (Moment(s, trace, k + 1).handed[d] == 1 <==> x >= Moment(s, trace, c).lastSync)
      && (x < Moment(s, trace, c).lastSync ==> Elapse(s, trace).handed[d] == 0)
  {
    hide Begins, SerialFor, Elapse, Apply;
    SerialUntil(before, s, trace, c, d);
    HandedAtMostTwice(s, before, trace[..c], d);
    MomentNext(s, trace, c);
    StampLasts(s, before, trace, c + 1, k, d);
    WindowWaits(s, trace, c + 1, k);
    FirstQueryHandsOver(s, before, trace, c, k, d);
    if Stamp(Moment(s, trace, c + 1).world, d).value < Moment(s, trace, c).lastSync {
      PassedForGood(s, before, trace, c + 1, |trace|, d);
      assert trace[..|trace|] == trace;
    }
  }

  /** No gaps. A discrepancy closed with the time of its own step is always handed over by the
      first query that succeeds after it. */
  lemma OwnStampIsInTime(s: State, before: seq<Act>, trace: seq<Timed>, c: nat, k: nat, d: int)
    requires Begins(s, before) && SerialFor(before, s, trace, d) && c < k < |trace| && ClosesAt(s, trace, c, d)
    requires Succeeds(s, trace, k) && forall m :: c < m < k ==> !Succeeds(s, trace, m)
    requires StampOf(trace[c].step.act) == Some(trace[c].time)
    ensures Moment(s, trace, k + 1).handed[d] == 1
  {
    hide Begins, SerialFor, Elapse, Apply, Inv;
    HandedIffStampedInTime(s, before, trace, c, k, d);
    WindowHolds(s, before, trace[..c], d);
    MomentNext(s, trace, c);
    StampsAreOwn(Moment(s, trace, c).world, trace[c].step.act, d);
  }

  // ---------------------------------------------------------------- traces

  /** Acts at successive instants after `clock`. */
  function Served(acts: seq<Act>, clock: int): seq<Timed> {
    seq(|acts|, i requires 0 <= i < |acts| => Timed(Service(acts[i]), clock + 1 + i))
  }

  lemma {:induction false} ServedRuns(s: State, acts: seq<Act>)
    requires forall i :: 0 <= i < |acts| && StampOf(acts[i]).Some? ==> StampOf(acts[i]).value <= s.clock + 1 + i
    ensures Elapse(s, Served(acts, s.clock)) == s.(world := Run(s.world, acts), clock := s.clock + |acts|)
  {
    hide Apply, StampOf;
    if acts != [] {
      var n := |acts| - 1;
      assert forall i :: 0 <= i < n ==> acts[..n][i] == acts[i];
      ServedRuns(s, acts[..n]);
      assert Served(acts, s.clock)[..n] == Served(acts[..n], s.clock);
      assert Served(acts, s.clock)[n] == Timed(Service(acts[n]), s.clock + 1 + n);
    }
  }

  lemma OneTick(s: State, e: Timed)
    ensures Elapse(s, [e]) == Tick(s, e)
  {
    assert [e][..0] == [];
  }

  lemma OnlyDue(d: int, row: Disc, since: int)
    requires ResolvedSince(row, since)
    ensures Due(map[d := row], since) == {d}
  {
  }

  lemma WholeSync(s: State, d: int, row: Disc)
    requires s.started == None && s.world.tables.discs == map[d := row] && Closed(row.status)
    requires row.resolvedAt.Some? && row.resolvedAt.value >= s.lastSync
    ensures Elapse(s, [Timed(BeginSync, s.clock + 1), Timed(QuerySync(true), s.clock + 2)])
         == s.(lastSync := s.clock + 1, handed := s.handed + multiset{d}, clock := s.clock + 2)
  {
    hide Elapse, Apply, Due;
    var begin, query := Timed(BeginSync, s.clock + 1), Timed(QuerySync(true), s.clock + 2);
    ElapseConcat(s, [begin], [query]);
    assert [begin] + [query] == [begin, query];
    OneTick(s, begin);
    OneTick(Tick(s, begin), query);
    OnlyDue(d, row, s.lastSync);
  }

  // ---------------------------------------------------------------- a closing that is lost

  function Resolving(m: Msg, d: int, resolutionType: string, stamp: int): Act
    requires Accepted(m)
  {
    Serving(Request(m.envelope.value.tenant.value, d, None, Resolve(resolutionType)), Done, stamp)
  }

  /** `d` is ingested and investigated; a user's request to resolve it reads its clock; a whole sync
      passes; and then the transaction of the request takes effect. */
  function LateTrace(m: Msg, d: int, resolutionType: string, now: int): seq<Timed>
    requires Accepted(m)
  {
    Served(Investigated(m, d), now) + [Timed(BeginSync, now + 8), Timed(QuerySync(true), now + 9)]
    + Served([Resolving(m, d, resolutionType, now + 7)], now + 9)
  }

  lemma LateActs(m: Msg, d: int, resolutionType: string, now: int, acts: seq<Act>, row: Disc)
    requires Accepted(m) && Storable(m.envelope.value) && ValidResolutionType(resolutionType)
    requires acts == Investigated(m, d) + [Resolving(m, d, resolutionType, now + 7)] && row == NewRow(m.envelope.value, 0)
    ensures Run(INIT, acts).tables.discs == map[d := row.(status := Resolved, resolvedAt := Some(now + 7))]
    ensures Run(INIT, acts[..7]).tables.discs == map[d := row.(status := Investigating)]
    ensures SerialFrom(INIT, acts, d)
  {
    hide Run, Apply, ValidResolutionType, SerialFrom;
    InvestigatedRuns(m, d, acts, row);
    RowIsOpen(m.envelope.value, row);
    var q := Request(m.envelope.value.tenant.value, d, None, Resolve(resolutionType));
    UserMoves(At(acts, 7), d, row.(status := Investigating), Idle, q, now + 7);
    AtNext(acts, 7);
    assert acts[..8] == acts;
    NoUsers(acts[..5], d);
    SerialNext(acts, 5, d);
    SerialNext(acts, 6, d);
    SerialNext(acts, 7, d);
  }

  lemma SerialNext(acts: seq<Act>, i: nat, d: int)
    requires i < |acts| && SerialFrom(INIT, acts[..i], d)
    requires At(acts, i).engine == Idle && !HandlerHolds(At(acts, i), d) && acts[i].Serving?
    ensures SerialFrom(INIT, acts[..i + 1], d)
  {
    hide Run, HandlerHolds;
    assert acts[..i + 1][..i] == acts[..i];
  }

  /** A closing can be lost. In this run from the start, serial for `d` and without a failed call
      or query, `d` is resolved with a time the window has passed, and no serial continuation ever
      hands it over. */
  lemma LateClosingIsLost(m: Msg, d: int, resolutionType: string, now: int, more: seq<Timed>)
    requires Accepted(m) && Storable(m.envelope.value) && ValidResolutionType(resolutionType)
    ensures var s, trace := State(INIT, now - 24 * HOUR, None, multiset{}, now), LateTrace(m, d, resolutionType, now);
      var t := Elapse(s, trace);
      && Begins(s, []) && SerialFor([], s, trace, d) && NoFailure(ActsOf(s, trace))
      && Stamp(t.world, d) == Some(now + 7) && t.lastSync == now + 8 && t.handed[d] == 0
      && (SerialFor([], s, trace + more, d) ==> Elapse(s, trace + more).handed[d] == 0)
  {
    hide Run, Elapse, Served, SerialFor, SerialFrom, StampOf, Apply, ValidResolutionType, Investigated, Due, ActsOf, NoFailure;
    var s, trace := State(INIT, now - 24 * HOUR, None, multiset{}, now), LateTrace(m, d, resolutionType, now);
    StartsFresh(now);
    LateElapses(m, d, resolutionType, now, s);
    LateIsSerial(m, d, resolutionType, now, s);
    if SerialFor([], s, trace + more, d) {
      assert (trace + more)[..|trace|] == trace && (trace + more)[..|trace + more|] == trace + more;
      PassedForGood(s, [], trace + more, |trace|, |trace + more|, d);
    }
  }

  lemma LateElapses(m: Msg, d: int, resolutionType: string, now: int, s: State)
    requires Accepted(m) && Storable(m.envelope.value) && ValidResolutionType(resolutionType)
    requires s == State(INIT, now - 24 * HOUR, None, multiset{}, now)
    ensures var t := Elapse(s, LateTrace(m, d, resolutionType, now));
      && t.world == Run(INIT, Investigated(m, d) + [Resolving(m, d, resolutionType, now + 7)])
      && Stamp(t.world, d) == Some(now + 7) && t.lastSync == now + 8 && t.handed == multiset{}
  {
    hide Run, Elapse, Served, Apply, ValidResolutionType;
    var inv, resolve, row := Investigated(m, d), Resolving(m, d, resolutionType, now + 7), NewRow(m.envelope.value, 0);
    var t1, t2, t3 := Served(inv, now), [Timed(BeginSync, now + 8), Timed(QuerySync(true), now + 9)], Served([resolve], now + 9);
    LateActs(m, d, resolutionType, now, inv + [resolve], row);
    assert (inv + [resolve])[..7] == inv;
    ServedRuns(s, inv);
    var s1 := s.(world := Run(INIT, inv), clock := now + 7);
    assert Elapse(s, t1) == s1;
    ElapseConcat(s, t1, t2);
    EmptySync(s1, d, row.(status := Investigating));
    var s2 := s1.(lastSync := now + 8, clock := now + 9);
    assert Elapse(s, t1 + t2) == s2;
    ElapseConcat(s, t1 + t2, t3);
    ServedRuns(s2, [resolve]);
    RunConcat(INIT, inv, [resolve]);
  }

  lemma EmptySync(s: State, d: int, row: Disc)
    requires s.started == None && s.world.tables.discs == map[d := row] && !Closed(row.status)
    ensures Elapse(s, [Timed(BeginSync, s.clock + 1), Timed(QuerySync(true), s.clock + 2)])
         == s.(lastSync := s.clock + 1, clock := s.clock + 2)
  {
    hide Elapse, Apply, Due;
    var begin, query := Timed(BeginSync, s.clock + 1), Timed(QuerySync(true), s.clock + 2);
    ElapseConcat(s, [begin], [query]);
    assert [begin] + [query] == [begin, query];
    OneTick(s, begin);
    OneTick(Tick(s, begin), query);
    NothingDue(d, row, s.lastSync);
    assert s.handed + multiset({}) == s.handed;
  }

  lemma NothingDue(d: int, row: Disc, since: int)
    requires !Closed(row.status)
    ensures Due(map[d := row], since) == {}
  {
  }

  lemma LateIsSerial(m: Msg, d: int, resolutionType: string, now: int, s: State)
    requires Accepted(m) && Storable(m.envelope.value) && ValidResolutionType(resolutionType)
    requires s == State(INIT, now - 24 * HOUR, None, multiset{}, now)
    ensures SerialFor([], s, LateTrace(m, d, resolutionType, now), d)
    ensures NoFailure(ActsOf(s, LateTrace(m, d, resolutionType, now)))
  {
    hide Run, Elapse, Served, SerialFrom, Apply, ValidResolutionType, ActsOf;
    var inv, resolve := Investigated(m, d), Resolving(m, d, resolutionType, now + 7);
    var sync := [Timed(BeginSync, now + 8), Timed(QuerySync(true), now + 9)];
    LateActs(m, d, resolutionType, now, inv + [resolve], NewRow(m.envelope.value, 0));
    ServedActs(s, inv);
    ServedRuns(s, inv);
    var s1 := s.(world := Run(INIT, inv), clock := now + 7);
    SyncHasNoActs(s1, sync);
    ElapseConcat(s, Served(inv, now), sync);
    ActsConcat(s, Served(inv, now), sync);
    var s2 := Elapse(s1, sync);
    ServedActs(s2, [resolve]);
    ActsConcat(s, Served(inv, now) + sync, Served([resolve], now + 9));
    assert inv + [] + [resolve] == inv + [resolve];
    assert [] + (inv + [resolve]) == inv + [resolve];
  }

  lemma {:induction false} ActsConcat(s: State, a: seq<Timed>, b: seq<Timed>)
    ensures ActsOf(s, a + b) == ActsOf(s, a) + ActsOf(Elapse(s, a), b)
  {
    hide Fits, Tick;
    if b == [] {
      assert a + b == a;
    } else {
      assert (a + b)[..|a + b| - 1] == a + b[..|b| - 1];
      ActsConcat(s, a, b[..|b| - 1]);
      ElapseConcat(s, a, b[..|b| - 1]);
    }
  }

  lemma {:induction false} ServedActs(s: State, acts: seq<Act>)
    requires forall i :: 0 <= i < |acts| && StampOf(acts[i]).Some? ==> StampOf(acts[i]).value <= s.clock + 1 + i
    ensures ActsOf(s, Served(acts, s.clock)) == acts
  {
    hide Apply, StampOf, Run;
    if acts != [] {
      var n := |acts| - 1;
      assert forall i :: 0 <= i < n ==> acts[..n][i] == acts[i];
      ServedActs(s, acts[..n]);
      ServedRuns(s, acts[..n]);
      assert Served(acts, s.clock)[..n] == Served(acts[..n], s.clock);
      assert Served(acts, s.clock)[n] == Timed(Service(acts[n]), s.clock + 1 + n);
      assert acts == acts[..n] + [acts[n]];
    }
  }

  lemma SyncHasNoActs(s: State, sync: seq<Timed>)
    requires sync == [Timed(BeginSync, s.clock + 1), Timed(QuerySync(true), s.clock + 2)] && s.started == None
    ensures ActsOf(s, sync) == [] && Elapse(s, sync).clock == s.clock + 2
  {
    hide Apply, Due;
    var begun := [sync[0]];
    assert sync[..1] == begun && begun[..0] == [];
    OneTick(s, sync[0]);
    assert ActsOf(s, begun) == [];
    assert Elapse(s, sync) == Tick(Elapse(s, begun), sync[1]);
  }

  // ---------------------------------------------------------------- two closings, three hand-overs

  /** The reopening run, and then the engine's event and a second resolution. */
  function Reclosing(m: Msg, d: int, r: Rule, resolutionType: string, now: int): seq<Act>
    requires CanReopen(m, d, r, resolutionType, now)
  {
    var resolve := Request(m.envelope.value.tenant.value, d, None, Resolve(resolutionType));
    Reopening(m, d, r, resolutionType, now, now + 11) + [EngineCall(Done, now, SendFailed), Serving(resolve, Done, now + 17)]
  }

  /** The same with a syncer that starts at `now`: a sync that begins just before the first
      resolution and two more, one of them after the second resolution. */
  function Trace(m: Msg, d: int, r: Rule, resolutionType: string, now: int): seq<Timed>
    requires CanReopen(m, d, r, resolutionType, now)
  {
    var acts := Reclosing(m, d, r, resolutionType, now);
    Served(acts[..9], now) + [Timed(BeginSync, now + 10)] + Served(acts[9..10], now + 10)
    + [Timed(QuerySync(true), now + 12)] + [Timed(BeginSync, now + 13), Timed(QuerySync(true), now + 14)]
    + Served(acts[10..], now + 14) + [Timed(BeginSync, now + 18), Timed(QuerySync(true), now + 19)]
  }

  lemma ReclosingRuns(m: Msg, d: int, r: Rule, resolutionType: string, now: int, acts: seq<Act>, row: Disc)
    requires CanReopen(m, d, r, resolutionType, now) && acts == Reclosing(m, d, r, resolutionType, now)
    requires row == NewRow(m.envelope.value, 0)
    ensures |acts| == 13
    ensures Run(INIT, acts[..10]).tables.discs == map[d := row.(status := Resolved, resolvedAt := Some(now + 11))]
    ensures Run(INIT, acts).tables.discs == map[d := row.(status := Resolved, resolvedAt := Some(now + 17))]
    ensures forall i :: 0 <= i < 9 && StampOf(acts[i]).Some? ==> StampOf(acts[i]).value <= now + 1 + i
    ensures StampOf(acts[9]) == Some(now + 11)
    ensures forall i :: 10 <= i < 13 && StampOf(acts[i]).Some? ==> StampOf(acts[i]).value <= now + 5 + i
  {
    hide Run, Apply, Selects, ValidResolutionType;
    ReopeningRuns(m, d, r, resolutionType, now, now + 11, acts, row);
    var s := Snapshot(d, row.(status := Investigating));
    var escalated := row.(status := Escalated, resolvedAt := None);
    AtNext(acts, 11);
    EngineAppends(At(acts, 11), d, escalated, s, r, now);
    AtNext(acts, 12);
    UserResolves(At(acts, 12), d, escalated, resolutionType, now + 17);
    assert acts[..13] == acts;
  }

  lemma EngineAppends(w: World, d: int, row: Disc, s: Snapshot, r: Rule, now: int)
    requires Only(w, d, row, Working(r, [s], Written)) && r.action == Escalate
    ensures Apply(w, EngineCall(Done, now, SendFailed)).tables.discs == map[d := row]
  {
    hide Recorded;
  }

  lemma UserResolves(w: World, d: int, row: Disc, resolutionType: string, now: int)
    requires w.tables.discs == map[d := row] && row.status == Escalated && ValidResolutionType(resolutionType)
    ensures Apply(w, Serving(Request(row.tenant, d, None, Resolve(resolutionType)), Done, now)).tables.discs
         == map[d := row.(status := Resolved, resolvedAt := Some(now))]
  {
    hide Recorded, Latest, ValidResolutionType;
    assert Permitted(w.tables, Request(row.tenant, d, None, Resolve(resolutionType)));
  }

  lemma StartsFresh(now: int)
    ensures Begins(State(INIT, now - 24 * HOUR, None, multiset{}, now), [])
  {
  }

  /** Without seriality twice is not the bound: a discrepancy that a stale engine write reopens
      is handed over three times. */
  lemma StaleWriteHandsOverThrice(m: Msg, d: int, r: Rule, resolutionType: string, now: int)
    requires CanReopen(m, d, r, resolutionType, now)
    ensures var s := State(INIT, now - 24 * HOUR, None, multiset{}, now);
      Begins(s, []) && Elapse(s, Trace(m, d, r, resolutionType, now)).handed[d] == 3
  {
    hide Run, Reclosing, Elapse, Served, StampOf, Apply, Selects, ValidResolutionType;
    var s := State(INIT, now - 24 * HOUR, None, multiset{}, now);
    StartsFresh(now);
    var acts, row := Reclosing(m, d, r, resolutionType, now), NewRow(m.envelope.value, 0);
    ReclosingRuns(m, d, r, resolutionType, now, acts, row);
    var first := row.(status := Resolved, resolvedAt := Some(now + 11));
    var second := row.(status := Resolved, resolvedAt := Some(now + 17));
    var t1, t2 := Served(acts[..9], now), [Timed(BeginSync, now + 10)];
    var t3, t4 := Served(acts[9..10], now + 10), [Timed(QuerySync(true), now + 12)];
    var t5 := [Timed(BeginSync, now + 13), Timed(QuerySync(true), now + 14)];
    var t6 := Served(acts[10..], now + 14);
    var t7 := [Timed(BeginSync, now + 18), Timed(QuerySync(true), now + 19)];

    ServedRuns(s, acts[..9]);
    var s1 := s.(world := Run(INIT, acts[..9]), clock := now + 9);
    assert Elapse(s, t1) == s1;
    ElapseConcat(s, t1, t2);
    OneTick(s1, t2[0]);
    var s2 := s1.(started := Some(now + 10), clock := now + 10);
    assert Elapse(s, t1 + t2) == s2;
    ElapseConcat(s, t1 + t2, t3);
    ServedRuns(s2, acts[9..10]);
    RunConcat(INIT, acts[..9], acts[9..10]);
    assert acts[..9] + acts[9..10] == acts[..10];
    var s3 := s2.(world := Run(INIT, acts[..10]), clock := now + 11);
    assert Elapse(s, t1 + t2 + t3) == s3;
    ElapseConcat(s, t1 + t2 + t3, t4);
    OneTick(s3, t4[0]);
    OnlyDue(d, first, s.lastSync);
    var s4 := s3.(started := None, lastSync := now + 10, handed := multiset{d}, clock := now + 12);
    assert Elapse(s, t1 + t2 + t3 + t4) == s4;
    ElapseConcat(s, t1 + t2 + t3 + t4, t5);
    WholeSync(s4, d, first);
    var s5 := s4.(lastSync := now + 13, handed := multiset{d, d}, clock := now + 14);
    assert Elapse(s, t1 + t2 + t3 + t4 + t5) == s5;
    ElapseConcat(s, t1 + t2 + t3 + t4 + t5, t6);
    ServedRuns(s5, acts[10..]);
    RunConcat(INIT, acts[..10], acts[10..]);
    assert acts[..10] + acts[10..] == acts;
    ElapseConcat(s, t1 + t2 + t3 + t4 + t5 + t6, t7);
    WholeSync(s5.(world := Run(INIT, acts), clock := now + 17), d, second);
  }
}
