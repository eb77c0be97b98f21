/** The four user actions as the handlers run them: checks in order, then one transaction, or one append for a note. */
module Workflow {
  import opened Domain
  import opened Ledger
  import opened Machine
  import opened Locking
  import opened Store

  datatype Reply =
    | Success
    | InvalidResolutionType
    | SequenceCheckFailed
    | SequenceConflict
    | NotFound
    | InvalidTransition
    | InternalError

  /** The reply to a request when no call fails: the first check that does not hold, in the
      handlers' order. */
  function ReplyOf(t: Tables, q: Request): Reply {
    if q.op.Resolve? && !ValidResolutionType(q.op.resolutionType) then InvalidResolutionType
    else if !LockHolds(t, q) then SequenceConflict
    else if q.id !in t.discs || t.discs[q.id].tenant != q.tenant then NotFound
    else if OpTarget(q.op).Some? && !ValidTransition(t.discs[q.id].status, OpTarget(q.op).value) then InvalidTransition
    else Success
  }

  /** What a request can leave behind: nothing, a sequence number burnt by a rolled-back
      transaction, or its whole effect. */
  ghost predicate AllOrNothing(t: Tables, t': Tables, q: Request, now: int) {
    t' == t || t' == t.(lastSeq := t.lastSeq + 1) || (Permitted(t, q) && t' == Serve(t, q, now))
  }

  // ---------------------------------------------------------------- in the request's own terms

  /** The status the action starts from; a note is taken in any. */
  predicate MayStart(op: Op, s: Status) {
    match op
    case Acknowledge => s == Open
    case Investigate => s == Acknowledged
    case Resolve(_) => s == Investigating || s == Escalated
    case AddNote => true
  }

  /** `n` is the sequence number of the last event of the tenant's discrepancy, 0 if it has none. */
  ghost predicate IsCurrent(t: Tables, tenant: int, id: int, n: int) {
    if id in t.discs && t.discs[id].tenant == tenant then
      && (forall i :: 0 <= i < |t.events| && t.events[i].disc == id ==> t.events[i].seqNum <= n)
      && (n == 0 || exists i :: 0 <= i < |t.events| && t.events[i].disc == id && t.events[i].seqNum == n)
    else n == 0
  }

  /** The reply when nothing fails. */
  ghost predicate RepliedAs(t: Tables, q: Request, reply: Reply) {
    if q.op.Resolve? && q.op.resolutionType !in {"match_found", "false_positive", "manual_adjustment", "write_off"}
    then reply == InvalidResolutionType
    else if q.expected.Some? && !IsCurrent(t, q.tenant, q.id, q.expected.value) then reply == SequenceConflict
    else if q.id !in t.discs || t.discs[q.id].tenant != q.tenant then reply == NotFound
    else if !MayStart(q.op, t.discs[q.id].status) then reply == InvalidTransition
    else reply == Success
  }

  /** What a success leaves behind: the new status, with a resolved time for a resolution and none
      otherwise, and one event about it; for a note the event alone. */
  predicate LeavesBehind(t: Tables, t': Tables, q: Request, now: int) {
    && q.id in t.discs
    && var row := t.discs[q.id];
    && var (row', kind, payload) := match q.op
         case Acknowledge => (row.(status := Acknowledged, resolvedAt := None), EvAcknowledged, Plain)
         case Investigate => (row.(status := Investigating, resolvedAt := None), EvInvestigationStarted, Plain)
         case Resolve(r) => (row.(status := Resolved, resolvedAt := Some(now)), EvResolved, Resolution(r))
         case AddNote => (row, EvNoteAdded, Plain);
    && t' == t.(discs := t.discs[q.id := row'],
                events := t.events + [Event(t.lastSeq + 1, q.id, kind, payload)], lastSeq := t.lastSeq + 1)
  }

  lemma {:induction false} CurrentIsLast(t: Tables, tenant: int, id: int, n: int)
    ensures IsCurrent(t, tenant, id, n) <==> n == CurrentSequence(t, tenant, id)
  {
    LatestIsMax(t.events, id);
  }

  lemma ReplyInWords(t: Tables, q: Request)
    ensures RepliedAs(t, q, ReplyOf(t, q))
    ensures ReplyOf(t, q) == Success ==> forall now :: LeavesBehind(t, Serve(t, q, now), q, now)
  {
    hide CurrentSequence, IsCurrent;
    if q.expected.Some? {
      CurrentIsLast(t, q.tenant, q.id, q.expected.value);
    }
    if q.id in t.discs {
      assert t.discs[q.id := t.discs[q.id]] == t.discs;
    }
  }

  // ---------------------------------------------------------------- whatever fails

  /** executeTransition when `fate` decides its calls from the n-th on: begin, read, status, event,
      commit. A failure before the commit rolls everything back; only the sequence counter, which
      PostgreSQL does not roll back, may have moved. */
  function TransitionPlayed(t: Tables, q: Request, fate: nat -> Outcome, n: nat, now: int): (Reply, Tables, nat)
    requires OpTarget(q.op).Some?
  {
    var burnt := t.(lastSeq := t.lastSeq + 1);
    if fate(n) != Done then (InternalError, t, n + 1)
    else if fate(n + 1) != Done || q.id !in t.discs || t.discs[q.id].tenant != q.tenant then (NotFound, t, n + 2)
    else if !ValidTransition(t.discs[q.id].status, OpTarget(q.op).value) then (InvalidTransition, t, n + 2)
    else if fate(n + 2) != Done then (InternalError, t, n + 3)
    else if fate(n + 3) != Done then (InternalError, After(fate(n + 3), t, burnt), n + 4)
    else
      match fate(n + 4)
      case Done => (Success, Serve(t, q, now), n + 5)
      case Lost => (InternalError, Serve(t, q, now), n + 5)
      case Refused => (InternalError, burnt, n + 5)
  }

  /** How a failed call is answered: one to read the discrepancy as not found, any other as an
      internal error, and nothing is called after it. */
  lemma FailureReplies(t: Tables, q: Request, fate: nat -> Outcome, n: nat, now: int)
    requires OpTarget(q.op).Some?
    ensures var (reply, _, m) := TransitionPlayed(t, q, fate, n, now);
      && n < m <= n + 5 && AllDone(fate, n, m - 1)
      && (fate(m - 1) != Done ==> reply == if m == n + 2 then NotFound else InternalError)
  {
    hide ValidTransition, Serve;
  }

  function NotePlayed(t: Tables, q: Request, fate: nat -> Outcome, n: nat): (Reply, Tables, nat)
    requires q.op == AddNote
  {
    if fate(n) != Done || q.id !in t.discs || t.discs[q.id].tenant != q.tenant then (NotFound, t, n + 1)
    else (if fate(n + 1) == Done then Success else InternalError, After(fate(n + 1), t, Serve(t, q, 0)), n + 2)
  }

  /** A request: its checks in order, then its transaction or its append. */
  function RequestPlayed(t: Tables, q: Request, fate: nat -> Outcome, n: nat, now: int): (Reply, Tables, nat) {
    if q.op.Resolve? && !ValidResolutionType(q.op.resolutionType) then (InvalidResolutionType, t, n)
    else if q.expected.Some? && fate(n) != Done then (SequenceCheckFailed, t, n + 1)
    else if !LockHolds(t, q) then (SequenceConflict, t, n + 1)
    else
      var n1 := if q.expected.Some? then n + 1 else n;
      if q.op == AddNote then NotePlayed(t, q, fate, n1) else TransitionPlayed(t, q, fate, n1, now)
  }

  /** Every call from number `from` up to `to` was done. */
  ghost predicate AllDone(fate: nat -> Outcome, from: nat, to: nat) {
    forall k :: from <= k < to ==> fate(k) == Done
  }

  /** Whatever fails, a request takes effect as a whole or not at all. A success is one effective
      step of the machine, and all its calls were done. When all calls that were made were done,
      the reply is that of the first check that does not hold, and only a success leaves anything
      behind. */
  lemma RequestMeans(t: Tables, q: Request, fate: nat -> Outcome, n: nat, now: int)
    ensures var (reply, t', m) := RequestPlayed(t, q, fate, n, now);
      && AllOrNothing(t, t', q, now)
      && (reply == Success ==>
            Permitted(t, q) && t' == Serve(t, q, now) && LeavesBehind(t, t', q, now) && AllDone(fate, n, m))
      && (AllDone(fate, n, m) ==> reply == ReplyOf(t, q) && RepliedAs(t, q, reply) && (reply != Success ==> t' == t))
  {
    ReplyInWords(t, q);
    hide RepliedAs, LeavesBehind, CurrentSequence, ValidTransition;
  }

  class Handler {
    const db: Backend

    constructor (db: Backend)
      ensures this.db == db
    {
      this.db := db;
    }

    method CheckOptimisticLock(q: Request) returns (reply: Reply)
      modifies db`calls
      ensures q.expected == None ==> reply == Success && db.calls == old(db.calls)
      ensures q.expected.Some? ==> db.calls == old(db.calls) + 1
      ensures q.expected.Some? && db.fate(old(db.calls)) != Done ==> reply == SequenceCheckFailed
      ensures q.expected.Some? && db.fate(old(db.calls)) == Done ==>
        reply == if IsCurrent(db.Contents(), q.tenant, q.id, q.expected.value) then Success else SequenceConflict
      ensures reply == Success ==> LockHolds(db.Contents(), q)
      ensures reply == SequenceConflict ==> !LockHolds(db.Contents(), q)
    {
      if q.expected == None {
        return Success;
      }
      CurrentIsLast(db.Contents(), q.tenant, q.id, q.expected.value);
      hide CurrentSequence, IsCurrent;
      var o, current := db.GetLatestSequence(q.tenant, q.id);
      if o != Done {
        return SequenceCheckFailed;
      }
      reply := if current == q.expected.value then Success else SequenceConflict;
    }

    /** executeTransition. It does not look at the expected sequence, which an event may have
        overtaken since it was checked. */
    method ExecuteTransition(q: Request, now: int) returns (reply: Reply)
      requires OpTarget(q.op).Some?
      modifies db`calls, db`discs, db`events, db`lastSeq
      ensures (reply, db.Contents(), db.calls) == TransitionPlayed(old(db.Contents()), q, db.fate, old(db.calls), now)
    {
      var begun := db.Outcome();
      if begun != Done {
        return InternalError;
      }
      var savedDiscs, savedEvents := db.discs, db.events;

      var read := db.Outcome();
      if read != Done || q.id !in db.discs || db.discs[q.id].tenant != q.tenant {
        return NotFound;
      }
      var target := OpTarget(q.op).value;
      if !ValidTransition(db.discs[q.id].status, target) {
        return InvalidTransition;
      }

      var updated := db.UpdateStatus(q.id, target, if q.op.Resolve? then Some(now) else None);
      if updated != Done {
        db.discs := savedDiscs;
        return InternalError;
      }
      var appended := db.AppendEvent(q.id, OpKind(q.op), OpPayload(q.op));
      if appended != Done {
        db.discs, db.events := savedDiscs, savedEvents;
        return InternalError;
      }
      var committed := db.Outcome();
      if committed == Refused {
        db.discs, db.events := savedDiscs, savedEvents;
      }
      reply := if committed == Done then Success else InternalError;
    }

    method AppendNote(q: Request) returns (reply: Reply)
      requires q.op == AddNote
      modifies db`calls, db`discs, db`events, db`lastSeq
      ensures (reply, db.Contents(), db.calls) == NotePlayed(old(db.Contents()), q, db.fate, old(db.calls))
    {
      var read := db.Outcome();
      if read != Done || q.id !in db.discs || db.discs[q.id].tenant != q.tenant {
        return NotFound;
      }
      var appended := db.AppendEvent(q.id, EvNoteAdded, Plain);
      reply := if appended == Done then Success else InternalError;
    }

    /** A request as the handlers serve it, whatever fails, and what it means. */
    method HandleRequest(q: Request, now: int, ghost w: World) returns (reply: Reply)
      requires w.tables == db.Contents()
      modifies db`calls, db`discs, db`events, db`lastSeq
      ensures (reply, db.Contents(), db.calls) == RequestPlayed(w.tables, q, db.fate, old(db.calls), now)
      ensures AllOrNothing(w.tables, db.Contents(), q, now)
      ensures reply == Success ==>
        && Enabled(w, Serving(q, Done, now)) && db.Contents() == Apply(w, Serving(q, Done, now)).tables
        && LeavesBehind(w.tables, db.Contents(), q, now) && AllDone(db.fate, old(db.calls), db.calls)
      ensures AllDone(db.fate, old(db.calls), db.calls) ==> RepliedAs(w.tables, q, reply) && (reply != Success ==> db.Contents() == w.tables)
    {
      hide CurrentSequence, IsCurrent, TransitionPlayed, NotePlayed, LeavesBehind, RepliedAs, AllOrNothing, AllDone;
      RequestMeans(w.tables, q, db.fate, db.calls, now);
      if q.op.Resolve? && !ValidResolutionType(q.op.resolutionType) {
        return InvalidResolutionType;
      }
      reply := CheckOptimisticLock(q);
      if reply != Success {
        return;
      }
      if q.op == AddNote {
        reply := AppendNote(q);
      } else {
        reply := ExecuteTransition(q, now);
      }
    }
  }

  /** A reply is a success exactly for the requests the machine permits. */
  lemma SuccessIffPermitted(t: Tables, q: Request)
    ensures ReplyOf(t, q) == Success <==> Permitted(t, q)
  {
  }
}
