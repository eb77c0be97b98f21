/** expected_sequence as an optimistic lock, when each request is one step. */
module Locking {
  import opened Domain
  import opened Ledger
  import opened Machine
  import opened AnyRun
  import opened SerialRun

  /** The request takes effect in this world, whether or not its caller hears of it. */
  predicate Effective(w: World, a: Act) {
    a.Serving? && Permitted(w.tables, a.request) && a.outcome != Refused
  }

  function At(acts: seq<Act>, i: nat): World
    requires i <= |acts|
  {
    Run(INIT, acts[..i])
  }

  /** The latest sequence is the number of the last event, or 0 when there is none. */
  lemma {:induction false} LatestIsMax(events: seq<Event>, d: int)
    ensures forall i :: 0 <= i < |events| && events[i].disc == d ==> events[i].seqNum <= Latest(events, d)
    ensures Latest(events, d) != 0 ==> exists i :: 0 <= i < |events| && events[i].disc == d && events[i].seqNum == Latest(events, d)
  {
    if events != [] {
      var n := |events| - 1;
      LatestIsMax(events[..n], d);
      forall i | 0 <= i < |events| && events[i].disc == d ensures events[i].seqNum <= Latest(events, d) {
        if i < n {
          assert events[..n][i] == events[i];
        }
      }
      if Latest(events, d) != 0 && Latest(events, d) != events[n].seqNum {
        var i :| 0 <= i < n && events[..n][i].disc == d && events[..n][i].seqNum == Latest(events[..n], d);
        assert events[i].disc == d;
      }
    }
  }

  /** Events of one discrepancy appended after `pre` raise its latest sequence above `pre`'s. */
  lemma NewEventRaises(t: Tables, t': Tables, d: int, i: nat)
    requires Sequenced(t') && t.events <= t'.events && |t.events| <= i < |t'.events| && t'.events[i].disc == d
    ensures Latest(t'.events, d) > Latest(t.events, d)
  {
    LatestIsMax(t'.events, d);
    LatestIsMax(t.events, d);
    if j :| 0 <= j < |t.events| && t.events[j].disc == d && t.events[j].seqNum == Latest(t.events, d) {
      assert t'.events[j] == t.events[j];
    }
  }

  lemma {:induction false} LogFrame(events: seq<Event>, events': seq<Event>, d: int)
    requires events <= events'
    requires forall i :: |events| <= i < |events'| ==> events'[i].disc != d
    ensures Log(events', d) == Log(events, d) && Latest(events', d) == Latest(events, d)
    decreases |events'|
  {
    if |events'| == |events| {
      assert events' == events;
    } else {
      LogFrame(events, events'[..|events'| - 1], d);
    }
  }

  /** No event of `d` is appended from moment `i` to moment `j`. */
  ghost predicate NoEventBetween(acts: seq<Act>, i: nat, j: nat, d: int)
    requires i <= |acts| && j <= |acts|
  {
    forall k :: |At(acts, i).tables.events| <= k < |At(acts, j).tables.events| ==> At(acts, j).tables.events[k].disc != d
  }

  /** A latest sequence never falls, and stays exactly while the discrepancy gets no event, that
      is, while its log stays. */
  lemma LatestTells(acts: seq<Act>, i: nat, j: nat, d: int)
    requires i <= j <= |acts|
    ensures var t, t' := At(acts, i).tables, At(acts, j).tables;
      && Latest(t.events, d) <= Latest(t'.events, d)
      && (Latest(t.events, d) == Latest(t'.events, d) <==> NoEventBetween(acts, i, j, d))
      && (NoEventBetween(acts, i, j, d) ==> Log(t.events, d) == Log(t'.events, d))
  {
    hide Run, EngineOk, HandlersOk, Log, Latest;
    var t, t' := At(acts, i).tables, At(acts, j).tables;
    assert acts[..j] == acts[..i] + acts[i..j];
    LedgerOnlyGrows(acts[..i], acts[i..j]);
    RunKeeps(acts[..j]);
    if k :| |t.events| <= k < |t'.events| && t'.events[k].disc == d {
      NewEventRaises(t, t', d, k);
    } else {
      LogFrame(t.events, t'.events, d);
    }
  }

  /** An effective request numbers its event above everything its discrepancy had. */
  lemma EffectRaises(w: World, a: Act)
    requires Inv(w) && Effective(w, a)
    ensures Latest(Apply(w, a).tables.events, a.request.id) > Latest(w.tables.events, a.request.id)
  {
    StepKeeps(w, a);
    NewEventRaises(w.tables, Apply(w, a).tables, a.request.id, |w.tables.events|);
  }

  /** Of any number of requests that carry one expected_sequence for one discrepancy, at most
      one takes effect, whatever else happens in between. */
  lemma LockAdmitsOne(acts: seq<Act>, i: nat, j: nat)
    requires i < j < |acts| && Effective(At(acts, i), acts[i]) && Effective(At(acts, j), acts[j])
    requires acts[i].request.id == acts[j].request.id && acts[i].request.expected.Some?
    ensures acts[i].request.expected != acts[j].request.expected
  {
    hide Inv, Latest;
    var d := acts[i].request.id;
    RunKeeps(acts[..i]);
    EffectRaises(At(acts, i), acts[i]);
    AtNext(acts, i);
    LatestTells(acts, i + 1, j, d);
  }

  /** A request that succeeds under the sequence a client read saw the very log the client saw:
      no event of the discrepancy was appended in between. */
  lemma LockSeesWhatWasRead(acts: seq<Act>, read: nat, j: nat)
    requires read <= j < |acts| && Effective(At(acts, j), acts[j])
    requires acts[j].request.expected == Some(Latest(At(acts, read).tables.events, acts[j].request.id))
    ensures Log(At(acts, read).tables.events, acts[j].request.id) == Log(At(acts, j).tables.events, acts[j].request.id)
  {
    LatestTells(acts, read, j, acts[j].request.id);
  }

  // ---------------------------------------------------------------- check and change apart

  /** The sequence a check made at moment `c` reads for the request of act `i`. */
  function Checked(acts: seq<Act>, c: nat, i: nat): nat
    requires c <= |acts| && i < |acts| && acts[i].Serving?
  {
    CurrentSequence(At(acts, c).tables, acts[i].request.tenant, acts[i].request.id)
  }

  /** A row is of the same tenant at every moment, and has no events before it exists. */
  lemma CheckReadsLatest(acts: seq<Act>, c: nat, i: nat)
    requires c <= i < |acts| && Effective(At(acts, i), acts[i])
    ensures Checked(acts, c, i) == Latest(At(acts, c).tables.events, acts[i].request.id)
  {
    hide Run, EngineOk, HandlersOk, UniqueExternal, ResolvedIffClosed, AtMostOne, OneNoticePerRule, SentOnce, LockHolds;
    var d, t := acts[i].request.id, At(acts, c).tables;
    assert acts[..i] == acts[..c] + acts[c..i];
    LedgerOnlyGrows(acts[..c], acts[c..i]);
    RunKeeps(acts[..c]);
    if d !in t.discs {
      LatestIsMax(t.events, d);
    }
  }

  /** The lock when its check, at moment `ci` or `cj`, is a call before the change, at act `i` or
      `j`: two changes of one discrepancy that both take effect were checked against the same
      sequence if and only if it got no event between the two checks, and then the second check
      was made before the first change. So one expected_sequence admits one of them whenever the
      check of the second follows the change of the first. */
  lemma SplitLock(acts: seq<Act>, ci: nat, i: nat, cj: nat, j: nat)
    requires ci <= i < j < |acts| && cj <= j
    requires Effective(At(acts, i), acts[i]) && Effective(At(acts, j), acts[j])
    requires acts[i].request.id == acts[j].request.id
    ensures Checked(acts, ci, i) == Checked(acts, cj, j) <==>
      NoEventBetween(acts, if ci <= cj then ci else cj, if ci <= cj then cj else ci, acts[i].request.id)
    ensures Checked(acts, ci, i) == Checked(acts, cj, j) ==> cj <= i
  {
    hide Inv, Latest, Run, NoEventBetween, Checked;
    var d := acts[i].request.id;
    CheckReadsLatest(acts, ci, i);
    CheckReadsLatest(acts, cj, j);
    if ci <= cj {
      LatestTells(acts, ci, cj, d);
    } else {
      LatestTells(acts, cj, ci, d);
    }
    if i < cj {
      LatestTells(acts, ci, i, d);
      RunKeeps(acts[..i]);
      EffectRaises(At(acts, i), acts[i]);
      AtNext(acts, i);
      LatestTells(acts, i + 1, cj, d);
    }
  }

  lemma AtNext(acts: seq<Act>, i: nat)
    requires i < |acts|
    ensures At(acts, i + 1) == Apply(At(acts, i), acts[i])
  {
    assert acts[..i + 1][..i] == acts[..i];
  }

  function Note(w: World, d: int): Act
    requires d in w.tables.discs
  {
    Serving(Request(w.tables.discs[d].tenant, d, None, AddNote), Done, 0)
  }

  lemma NoteIsEffective(w: World, d: int)
    requires d in w.tables.discs
    ensures Effective(w, Note(w, d)) && Effective(Apply(w, Note(w, d)), Note(w, d))
  {
    hide Latest, ValidTransition, Recorded;
  }

  /** Overlap does happen: after any run, two notes on any discrepancy, both checked before
      either is appended, were checked against one sequence and both take effect. */
  lemma SplitChecksAdmitTwo(acts: seq<Act>, d: int)
    requires d in Run(INIT, acts).tables.discs
    ensures var n, note := |acts|, Note(Run(INIT, acts), d);
      var more := acts + [note, note];
      && Checked(more, n, n) == Checked(more, n, n + 1)
      && Effective(At(more, n), more[n]) && Effective(At(more, n + 1), more[n + 1])
  {
    hide Run, Effective, Apply, CurrentSequence;
    var n, note := |acts|, Note(Run(INIT, acts), d);
    var more := acts + [note, note];
    assert more[..n] == acts;
    AtNext(more, n);
    NoteIsEffective(Run(INIT, acts), d);
  }
}
