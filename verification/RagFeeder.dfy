/** Which resolution type the fed document names: the last fifty events, scanned backward. */
module RagFeeder {
  import opened Domain
  import opened Ledger
  import opened Machine
  import opened AnyRun
  import opened SerialRun
  import opened Replay
  import opened Locking

  const MAX_TIMELINE_EVENTS: nat := 50

  const UNKNOWN := "unknown"

  predicate Closes(k: EventKind) {
    k == EvResolved || k == EvAutoClosed
  }

  /** The last closing event of a log is number `k`. */
  predicate LastClosing(log: seq<Entry>, k: nat) {
    k < |log| && Closes(log[k].kind) && forall j :: k < j < |log| ==> !Closes(log[j].kind)
  }

  function TypeIn(p: Payload): string {
    if p.Resolution? then p.resolutionType else UNKNOWN
  }

  /** The backward scan of formatDiscrepancyMarkdown. */
  method ResolutionType(events: seq<Entry>) returns (resolutionType: string)
    ensures forall k: nat :: LastClosing(events, k) ==> resolutionType == TypeIn(events[k].payload)
    ensures (forall k :: 0 <= k < |events| ==> !Closes(events[k].kind)) ==> resolutionType == UNKNOWN
  {
    resolutionType := UNKNOWN;
    var i := |events|;
    while i > 0
      invariant 0 <= i <= |events| && resolutionType == UNKNOWN
      invariant forall j :: i <= j < |events| ==> !Closes(events[j].kind)
    {
      i := i - 1;
      if Closes(events[i].kind) {
        if events[i].payload.Resolution? {
          resolutionType := events[i].payload.resolutionType;
        }
        return;
      }
    }
  }

  /** The type a document over this log must name: that of the last closing event when at most
      49 events follow it, else "unknown". */
  ghost predicate Names(events: seq<Entry>, resolutionType: string) {
    && (forall k: nat :: LastClosing(events, k) ==>
          resolutionType ==
          if |events| - 1 - k <= MAX_TIMELINE_EVENTS - 1 then TypeIn(events[k].payload) else UNKNOWN)
    && ((forall k :: 0 <= k < |events| ==> !Closes(events[k].kind)) ==> resolutionType == UNKNOWN)
  }

  /** FeedResolved up to the upload. When the events cannot be read the document is written
      without them. */
  method Document(fetched: Option<seq<Entry>>) returns (resolutionType: string)
    ensures fetched == None ==> resolutionType == UNKNOWN
    ensures fetched.Some? ==> Names(fetched.value, resolutionType)
    ensures fetched.Some? ==> forall k: nat | k < |fetched.value| ::
      && (fetched.value[k].kind == EvResolved || fetched.value[k].kind == EvAutoClosed)
      && (forall j :: k < j < |fetched.value| ==> fetched.value[j].kind != EvResolved && fetched.value[j].kind != EvAutoClosed)
      ==> resolutionType == if |fetched.value| - k <= 50 && fetched.value[k].payload.Resolution?
                            then fetched.value[k].payload.resolutionType else "unknown"
  {
    var events := if fetched.Some? then fetched.value else [];
    var shown := events;
    if |events| > MAX_TIMELINE_EVENTS {
      shown := events[|events| - MAX_TIMELINE_EVENTS..];
    }
    resolutionType := ResolutionType(shown);
    hide LastClosing, Names, Closes;
    ShownNames(events, resolutionType);
    NamesInWords(events, resolutionType);
  }

  /** What is found among the last fifty events is what the log names. */
  lemma ShownNames(events: seq<Entry>, resolutionType: string)
    requires var shown := if |events| > MAX_TIMELINE_EVENTS then events[|events| - MAX_TIMELINE_EVENTS..] else events;
      && (forall k: nat :: LastClosing(shown, k) ==> resolutionType == TypeIn(shown[k].payload))
      && ((forall k :: 0 <= k < |shown| ==> !Closes(shown[k].kind)) ==> resolutionType == UNKNOWN)
    ensures Names(events, resolutionType)
    ensures events == [] ==> resolutionType == UNKNOWN
  {
    hide Closes;
    var shown := if |events| > MAX_TIMELINE_EVENTS then events[|events| - MAX_TIMELINE_EVENTS..] else events;
    var cut := |events| - |shown|;
    forall k: nat | LastClosing(events, k)
      ensures resolutionType ==
              if |events| - 1 - k <= MAX_TIMELINE_EVENTS - 1 then TypeIn(events[k].payload) else UNKNOWN
    {
      if k >= cut {
        forall j | k - cut < j < |shown| ensures !Closes(shown[j].kind) {
          assert shown[j] == events[cut + j];
        }
        assert shown[k - cut] == events[k];
        assert LastClosing(shown, k - cut);
      } else {
        forall j | 0 <= j < |shown| ensures !Closes(shown[j].kind) {
          assert shown[j] == events[cut + j];
        }
      }
    }
    if forall k :: 0 <= k < |events| ==> !Closes(events[k].kind) {
      forall j | 0 <= j < |shown| ensures !Closes(shown[j].kind) {
        assert shown[j] == events[cut + j];
      }
    }
  }

  lemma NamesInWords(events: seq<Entry>, resolutionType: string)
    requires Names(events, resolutionType)
    ensures forall k: nat | k < |events| ::
      && (events[k].kind == EvResolved || events[k].kind == EvAutoClosed)
      && (forall j :: k < j < |events| ==> events[j].kind != EvResolved && events[j].kind != EvAutoClosed)
      ==> resolutionType == if |events| - k <= 50 && events[k].payload.Resolution?
                            then events[k].payload.resolutionType else "unknown"
  {
    forall k: nat | k < |events| && (events[k].kind == EvResolved || events[k].kind == EvAutoClosed)
      && (forall j :: k < j < |events| ==> events[j].kind != EvResolved && events[j].kind != EvAutoClosed)
      ensures resolutionType == if |events| - k <= 50 && events[k].payload.Resolution?
                                then events[k].payload.resolutionType else "unknown"
    {
      assert LastClosing(events, k);
    }
  }

  // ---------------------------------------------------------------- what the ledger guarantees

  /** Some resolve request of the run gave this type for `d`, and took effect. */
  ghost predicate Given(acts: seq<Act>, d: int, resolutionType: string) {
    exists j | 0 <= j < |acts| ::
      Effective(At(acts, j), acts[j]) && acts[j].request.id == d && acts[j].request.op == Resolve(resolutionType)
  }

  ghost predicate TypesGiven(acts: seq<Act>, t: Tables) {
    forall i :: 0 <= i < |t.events| && t.events[i].kind == EvResolved ==>
      t.events[i].payload.Resolution? && Given(acts, t.events[i].disc, t.events[i].payload.resolutionType)
  }

  lemma GivenStays(acts: seq<Act>, d: int, resolutionType: string)
    requires acts != [] && Given(acts[..|acts| - 1], d, resolutionType)
    ensures Given(acts, d, resolutionType)
  {
    hide Run, Permitted;
    var pre := acts[..|acts| - 1];
    var j :| 0 <= j < |pre| && Effective(At(pre, j), pre[j])
          && pre[j].request.id == d && pre[j].request.op == Resolve(resolutionType);
    assert pre[..j] == acts[..j] && pre[j] == acts[j];
  }

  /** A step adds at most one resolved event: that of the request it serves. */
  lemma OneResolved(w: World, a: Act)
    ensures var events, events' := w.tables.events, Apply(w, a).tables.events;
      && |events| <= |events'| <= |events| + 1 && events'[..|events|] == events
      && (|events'| > |events| && events'[|events|].kind == EvResolved ==>
            Effective(w, a) && a.request.op.Resolve? && events'[|events|].disc == a.request.id
            && events'[|events|].payload == Resolution(a.request.op.resolutionType))
  {
    hide Recorded, ValidResolutionType, Latest, HasEvent, HasNotice, ExternalTaken, LockHolds;
  }

  /** Every resolved event of a run carries the type some effective resolve request gave. */
  lemma {:induction false} ResolutionsAreGiven(acts: seq<Act>)
    ensures TypesGiven(acts, Run(INIT, acts).tables)
  {
    hide Permitted, Apply, Given, Effective;
    if acts != [] {
      var n := |acts| - 1;
      var pre, a := acts[..n], acts[n];
      var w, w' := Run(INIT, pre), Run(INIT, acts);
      ResolutionsAreGiven(pre);
      OneResolved(w, a);
      forall i | 0 <= i < |w'.tables.events| && w'.tables.events[i].kind == EvResolved
        ensures w'.tables.events[i].payload.Resolution?
        ensures Given(acts, w'.tables.events[i].disc, w'.tables.events[i].payload.resolutionType)
      {
        var e := w'.tables.events[i];
        if i < |w.tables.events| {
          assert e == w.tables.events[i];
          GivenStays(acts, e.disc, e.payload.resolutionType);
        } else {
          GivenNow(acts, a, e);
        }
      }
    }
  }

  lemma GivenNow(acts: seq<Act>, a: Act, e: Event)
    requires acts != [] && a == acts[|acts| - 1] && Effective(At(acts, |acts| - 1), a)
    requires a.request.op.Resolve? && e.disc == a.request.id && e.payload == Resolution(a.request.op.resolutionType)
    ensures Given(acts, e.disc, e.payload.resolutionType)
  {
    hide Effective, At;
  }

  lemma {:induction false} LogEntries(events: seq<Event>, d: int, j: nat)
    requires j < |Log(events, d)|
    ensures exists i | 0 <= i < |events| ::
      events[i].disc == d && Log(events, d)[j] == Entry(events[i].kind, events[i].payload)
  {
    var n := |events| - 1;
    if j < |Log(events[..n], d)| {
      LogEntries(events[..n], d, j);
      var i :| 0 <= i < n && events[..n][i].disc == d && Log(events[..n], d)[j] == Entry(events[..n][i].kind, events[..n][i].payload);
      assert events[..n][i] == events[i];
    } else {
      assert Log(events, d)[j] == Entry(events[n].kind, events[n].payload);
    }
  }

  /** When a log names "resolved" last, its last event that is not a note is a resolved event. */
  lemma {:induction false} ResolvedLast(log: seq<Entry>) returns (k: nat)
    requires Fold(log) == Some(Resolved)
    ensures k < |log| && log[k].kind == EvResolved && forall j :: k < j < |log| ==> log[j].kind == EvNoteAdded
  {
    var n := |log| - 1;
    if log[n].kind == EvNoteAdded {
      k := ResolvedLast(log[..n]);
    } else {
      k := n;
    }
  }

  /** Resolution survives. In a run that is serial for it, whatever calls fail, the document of a
      resolved discrepancy names the type an effective resolve request gave it, exactly when at most 49
      events, all of them notes, have followed the resolved event. */
  lemma ResolutionSurvives(acts: seq<Act>, d: int) returns (notes: nat, given: string)
    requires SerialFrom(INIT, acts, d)
    requires d in Run(INIT, acts).tables.discs && Run(INIT, acts).tables.discs[d].status == Resolved
    ensures var log := Log(Run(INIT, acts).tables.events, d);
      && notes < |log| && log[|log| - 1 - notes] == Entry(EvResolved, Resolution(given))
      && (forall j :: |log| - 1 - notes < j < |log| ==> log[j].kind == EvNoteAdded)
      && Given(acts, d, given)
      && (forall named :: Names(log, named) ==> named == if notes <= 49 then given else UNKNOWN)
  {
    hide Run, Log, SerialFrom, Given;
    var w := Run(INIT, acts);
    var log := Log(w.tables.events, d);
    UserStatusIsReplayed(acts, d);
    var k := ResolvedLast(log);
    ResolutionsAreGiven(acts);
    LogEntries(w.tables.events, d, k);
    notes, given := |log| - 1 - k, log[k].payload.resolutionType;
    assert LastClosing(log, k);
  }
}
