/**
 The escalation engine as the code runs it: nested loops over tenants, rules and candidates,
 whose bodies change the tables they walk over. Each store call may fail. Every pass is shown
 to be a run of the machine, and a pass without failures to give each discrepancy its walk.
*/
module EscalationEngine {
  import opened Domain
  import opened Ledger
  import opened Machine
  import opened SerialRun
  import opened Escalation
  import opened Store

  // ---------------------------------------------------------------- runs of the engine alone

  predicate EngineActs(acts: seq<Act>) {
    forall i :: 0 <= i < |acts| ==> acts[i].EngineCall? || acts[i].ListCandidates?
  }

  /** From `w`, the calls `acts` lead to these tables and this engine, and touch nothing else. */
  predicate Leads(w: World, acts: seq<Act>, t: Tables, e: Engine) {
    EngineActs(acts) && Run(w, acts).tables == t && Run(w, acts).engine == e && Run(w, acts).handlers == w.handlers
  }

  lemma LeadsOneMore(w: World, acts: seq<Act>, a: Act)
    requires EngineActs(acts) && (a.EngineCall? || a.ListCandidates?) && Run(w, acts).handlers == w.handlers
    ensures Leads(w, acts + [a], Apply(Run(w, acts), a).tables, Apply(Run(w, acts), a).engine)
  {
    RunAppend(w, acts, a);
  }

  lemma LeadsOn(w: World, acts: seq<Act>, more: seq<Act>, t: Tables, e: Engine)
    requires EngineActs(acts) && Run(w, acts).handlers == w.handlers && Leads(Run(w, acts), more, t, e)
    ensures Leads(w, acts + more, t, e)
  {
    RunConcat(w, acts, more);
  }

  /** The engine on its own is serial for a discrepancy, as long as no handler is halfway
      through ingesting it. */
  lemma {:induction false} EngineAloneIsSerial(w: World, acts: seq<Act>, d: int)
    requires EngineActs(acts) && !HandlerHolds(w, d)
    ensures SerialFrom(w, acts, d) && Run(w, acts).handlers == w.handlers
  {
    if acts != [] {
      var pre, a := acts[..|acts| - 1], acts[|acts| - 1];
      assert forall i :: 0 <= i < |pre| ==> pre[i] == acts[i];
      EngineAloneIsSerial(w, pre, d);
      HoldsFrame(w, Run(w, pre), d);
    }
  }

  // ---------------------------------------------------------------- one action without failure

  /** The effect on the tables of one action whose calls all succeed. */
  function Acted(t: Tables, r: Rule, s: Snapshot, now: int, answer: SendResult): Tables {
    if r.action == Notify then
      if HasNotice(t, r.id, s.id) then t
      else t.(notices := t.notices + [Notice(r.id, s.id, AfterFirstSend(answer), 1)], sends := t.sends + [(r.id, s.id)])
    else if HasEvent(t, s.id, EffectKind(r.action)) || !ValidTransition(s.row.status, Target(r.action)) then t
    else if r.action == Escalate && r.newSeverity.Some? && ParseSeverity(r.newSeverity.value) == None then t
    else
      var t1 := if r.action == Escalate && r.newSeverity.Some? then SetSeverity(t, s.id, r.newSeverity.value) else t;
      Append(SetStatus(t1, s.id, Target(r.action), ClosingTime(r.action, now)), s.id, EffectKind(r.action), ByRule(r.id))
  }

  lemma NoticesAppend(notices: seq<Notice>, n: Notice, d: int)
    ensures OwnNotices(notices + [n], d)
         == OwnNotices(notices, d) + (if n.disc == d then [OwnNotice(n.rule, n.status, n.attempts)] else [])
  {
    assert (notices + [n])[..|notices|] == notices;
  }

  lemma SendsAppend(sends: seq<(int, int)>, s: (int, int), d: int)
    ensures OwnSends(sends + [s], d) == OwnSends(sends, d) + (if s.1 == d then [s.0] else [])
  {
    assert (sends + [s])[..|sends|] == sends;
  }

  lemma {:induction false} NoticesHave(notices: seq<Notice>, rule: int, d: int)
    ensures (exists i :: 0 <= i < |notices| && notices[i].rule == rule && notices[i].disc == d)
        <==> (exists i :: 0 <= i < |OwnNotices(notices, d)| && OwnNotices(notices, d)[i].rule == rule)
  {
    if notices != [] {
      var n := |notices| - 1;
      var pre, own, all := notices[..n], OwnNotices(notices[..n], d), OwnNotices(notices, d);
      NoticesHave(pre, rule, d);
      if i :| 0 <= i < |notices| && notices[i].rule == rule && notices[i].disc == d {
        if i < n {
          assert pre[i] == notices[i];
          var j :| 0 <= j < |own| && own[j].rule == rule;
          assert all[j].rule == rule;
        } else {
          assert all[|all| - 1].rule == rule;
        }
      }
      if j :| 0 <= j < |all| && all[j].rule == rule {
        if j < |own| {
          assert own[j].rule == rule;
          var i :| 0 <= i < |pre| && pre[i].rule == rule && pre[i].disc == d;
          assert notices[i].rule == rule;
        } else {
          assert notices[n].rule == rule;
        }
      }
    }
  }

  /** One action is one rule's effect on one discrepancy's view, and leaves the others' alone. */
  lemma ActedView(t: Tables, r: Rule, s: Snapshot, p: Pass, d: int)
    requires s.id in t.discs && s.row == t.discs[s.id] && Selects(r, p.now, s.row) && d in t.discs
    ensures var t' := Acted(t, r, s, p.now, p.answer(r.id));
      && t'.discs.Keys == t.discs.Keys
      && ViewOf(t', d) == if d == s.id then RuleView(r, ViewOf(t, d), p) else ViewOf(t, d)
  {
    hide Log, OwnNotices, OwnSends, Latest, ParseSeverity, OlderThan;
    LogHas(t.events, s.id, EffectKind(r.action));
    NoticesHave(t.notices, r.id, s.id);
    NoticesAppend(t.notices, Notice(r.id, s.id, AfterFirstSend(p.answer(r.id)), 1), d);
    SendsAppend(t.sends, (r.id, s.id), d);
    LogAppend(t.events, Event(t.lastSeq + 1, s.id, EffectKind(r.action), ByRule(r.id)), d);
    assert forall l: seq<Entry> :: l + [] == l;
    assert forall l: seq<OwnNotice> :: l + [] == l;
    assert forall l: seq<int> :: l + [] == l;
  }

  // ---------------------------------------------------------------- one action, whatever fails

  function StageLeft(s: Stage): nat {
    match s
    case Start => 5
    case Cleared => 4
    case Ready => 3
    case Written => 2
    case Logged(_) => 3
    case Answered(_, _) => 2
  }

  function CallsLeft(s: Stage): nat {
    match s
    case Start => 4
    case Cleared => 3
    case Ready => 2
    case Written => 1
    case Logged(_) => 1
    case Answered(_, _) => 1
  }

  lemma StepLeft(t: Tables, e: Engine, o: Outcome, now: int, hub: SendResult)
    requires e.Working? && e.pending != []
    ensures var e' := EngineStep(t, e, o, now, hub).1;
      || e' == NextCandidate(e)
      || (e'.Working? && e' == Working(e.rule, e.pending, e'.stage) && StageLeft(e'.stage) < StageLeft(e.stage))
  {
    hide HasEvent, HasNotice, ParseSeverity, ValidTransition;
  }

  /** What is left of the action of `r` on `s` from this stage, when `fate` decides the store calls
      from the n-th on: the tables it leads to, and the number of the next call. The send is no
      store call. */
  function Play(t: Tables, r: Rule, s: Snapshot, stage: Stage, fate: nat -> Outcome, n: nat, now: int, hub: SendResult): (Tables, nat)
    decreases StageLeft(stage)
  {
    var e := Working(r, [s], stage);
    var o := if stage.Logged? then Done else fate(n);
    var n1 := if stage.Logged? then n else n + 1;
    var (t1, e1) := EngineStep(t, e, o, now, hub);
    StepLeft(t, e, o, now, hub);
    if e1 == NextCandidate(e) then (t1, n1) else Play(t1, r, s, e1.stage, fate, n1, now, hub)
  }

  /** An action on a candidate, from its dedup check on. */
  function Played(t: Tables, r: Rule, s: Snapshot, fate: nat -> Outcome, n: nat, now: int, answer: (int, int) -> SendResult): (Tables, nat) {
    Play(t, r, s, Start, fate, n, now, answer(r.id, s.id))
  }

  /** An action stops at its first call that fails; if that is its first, nothing has changed. */
  ghost predicate StopsAtFailure(fate: nat -> Outcome, from: nat, to: nat, t: Tables, t': Tables) {
    && from < to <= from + 4 && (forall k :: from <= k < to - 1 ==> fate(k) == Done)
    && (fate(from) != Done ==> to == from + 1 && t' == t)
  }

  lemma PlayStops(t: Tables, r: Rule, s: Snapshot, fate: nat -> Outcome, n: nat, now: int, answer: (int, int) -> SendResult)
    ensures var (t', m) := Played(t, r, s, fate, n, now, answer); StopsAtFailure(fate, n, m, t, t')
  {
    PlayKeeps(t, r, s, Start, fate, n, now, answer(r.id, s.id));
  }

  lemma PlayKeeps(t: Tables, r: Rule, s: Snapshot, stage: Stage, fate: nat -> Outcome, n: nat, now: int, hub: SendResult)
    requires stage.Logged? || stage.Answered? ==> r.action == Notify
    ensures var (t', m) := Play(t, r, s, stage, fate, n, now, hub);
      && t'.discs.Keys == t.discs.Keys && n < m <= n + CallsLeft(stage)
      && (forall k :: n <= k < m - 1 ==> fate(k) == Done)
      && (fate(n) != Done && !stage.Logged? ==> m == n + 1)
      && (fate(n) != Done && stage == Start ==> t' == t)
    decreases StageLeft(stage)
  {
    hide HasEvent, HasNotice, ParseSeverity, ValidTransition;
    var e := Working(r, [s], stage);
    var o := if stage.Logged? then Done else fate(n);
    var (t1, e1) := EngineStep(t, e, o, now, hub);
    StepLeft(t, e, o, now, hub);
    if e1 != NextCandidate(e) {
      PlayKeeps(t1, r, s, e1.stage, fate, if stage.Logged? then n else n + 1, now, hub);
    }
  }

  /** Without failures an action is what Acted says. */
  lemma PlayedIsActed(t: Tables, r: Rule, s: Snapshot, fate: nat -> Outcome, n: nat, now: int, answer: (int, int) -> SendResult)
    requires NeverFails(fate)
    ensures Played(t, r, s, fate, n, now, answer).0 == Acted(t, r, s, now, answer(r.id, s.id))
  {
    hide HasEvent, HasNotice, ParseSeverity, ValidTransition;
    if r.action == Notify {
      NotifyPlayed(t, r, s, fate, n, now, answer(r.id, s.id));
    } else {
      ChangePlayed(t, r, s, fate, n, now, answer(r.id, s.id));
    }
  }

  lemma NotifyPlayed(t: Tables, r: Rule, s: Snapshot, fate: nat -> Outcome, n: nat, now: int, hub: SendResult)
    requires NeverFails(fate) && r.action == Notify
    ensures Play(t, r, s, Start, fate, n, now, hub).0 == Acted(t, r, s, now, hub)
  {
    hide HasNotice, ChangeStep;
    if !HasNotice(t, r.id, s.id) {
      var k := |t.notices|;
      var t1 := AddNotice(t, r.id, s.id);
      var t2 := t1.(sends := t1.sends + [(r.id, s.id)]);
      assert Play(t, r, s, Start, fate, n, now, hub) == Play(t, r, s, Cleared, fate, n + 1, now, hub);
      assert Play(t, r, s, Cleared, fate, n + 1, now, hub) == Play(t1, r, s, Logged(k), fate, n + 2, now, hub);
      assert Play(t1, r, s, Logged(k), fate, n + 2, now, hub) == Play(t2, r, s, Answered(k, hub), fate, n + 2, now, hub);
      assert Play(t2, r, s, Answered(k, hub), fate, n + 2, now, hub).0 == SetNotice(t2, k, AfterFirstSend(hub), 1);
    }
  }

  lemma ChangePlayed(t: Tables, r: Rule, s: Snapshot, fate: nat -> Outcome, n: nat, now: int, hub: SendResult)
    requires NeverFails(fate) && r.action != Notify
    ensures Play(t, r, s, Start, fate, n, now, hub).0 == Acted(t, r, s, now, hub)
  {
    hide HasEvent, NotifyStep, ParseSeverity, ValidTransition, Append;
    if !HasEvent(t, s.id, EffectKind(r.action)) && ValidTransition(s.row.status, Target(r.action)) {
      if r.action == Escalate && r.newSeverity.Some? {
        assert Play(t, r, s, Start, fate, n, now, hub) == Play(t, r, s, Cleared, fate, n + 1, now, hub);
        if ParseSeverity(r.newSeverity.value).Some? {
          var t1 := SetSeverity(t, s.id, r.newSeverity.value);
          assert Play(t, r, s, Cleared, fate, n + 1, now, hub) == Play(t1, r, s, Ready, fate, n + 2, now, hub);
          ReadyPlayed(t1, r, s, fate, n + 2, now, hub);
        }
      } else {
        assert Play(t, r, s, Start, fate, n, now, hub) == Play(t, r, s, Ready, fate, n + 1, now, hub);
        ReadyPlayed(t, r, s, fate, n + 1, now, hub);
      }
    }
  }

  lemma ReadyPlayed(t: Tables, r: Rule, s: Snapshot, fate: nat -> Outcome, n: nat, now: int, hub: SendResult)
    requires NeverFails(fate) && r.action != Notify
    ensures Play(t, r, s, Ready, fate, n, now, hub).0
         == Append(SetStatus(t, s.id, Target(r.action), ClosingTime(r.action, now)), s.id, EffectKind(r.action), ByRule(r.id))
  {
    hide NotifyStep, Append, SetStatus;
    var t1 := SetStatus(t, s.id, Target(r.action), ClosingTime(r.action, now));
    assert Play(t, r, s, Ready, fate, n, now, hub) == Play(t1, r, s, Written, fate, n + 1, now, hub);
  }

  lemma SameStep(t: Tables, r: Rule, s: Snapshot, rest: seq<Snapshot>, stage: Stage, o: Outcome, now: int, hub: SendResult)
    ensures var (t', e') := EngineStep(t, Working(r, [s], stage), o, now, hub);
      EngineStep(t, Working(r, [s] + rest, stage), o, now, hub)
      == (t', if e' == NextCandidate(Working(r, [s], stage)) then Working(r, rest, Start) else Working(r, [s] + rest, e'.stage))
  {
    hide HasEvent, HasNotice, ParseSeverity, ValidTransition;
    assert ([s] + rest)[1..] == rest && [s][1..] == [];
  }

  /** An action is a run of the machine's engine. */
  lemma PlayLeads(w: World, r: Rule, s: Snapshot, rest: seq<Snapshot>, stage: Stage, fate: nat -> Outcome, n: nat, now: int, hub: SendResult)
    returns (acts: seq<Act>)
    requires w.engine == Working(r, [s] + rest, stage)
    ensures Leads(w, acts, Play(w.tables, r, s, stage, fate, n, now, hub).0, Working(r, rest, Start))
    ensures NeverFails(fate) ==> NoFailure(acts)
    decreases StageLeft(stage)
  {
    hide EngineStep, Recorded;
    var e := Working(r, [s], stage);
    var o := if stage.Logged? then Done else fate(n);
    var n1 := if stage.Logged? then n else n + 1;
    var (t1, e1) := EngineStep(w.tables, e, o, now, hub);
    StepLeft(w.tables, e, o, now, hub);
    SameStep(w.tables, r, s, rest, stage, o, now, hub);
    acts := [EngineCall(o, now, hub)];
    LeadsOneMore(w, [], acts[0]);
    assert [] + acts == acts;
    if e1 != NextCandidate(e) {
      var more := PlayLeads(Run(w, acts), r, s, rest, e1.stage, fate, n1, now, hub);
      Joined(w, acts, more, Play(t1, r, s, e1.stage, fate, n1, now, hub).0, Working(r, rest, Start));
      acts := acts + more;
    }
  }

  // ---------------------------------------------------------------- passes over the tables

  function PassOf(now: int, answer: (int, int) -> SendResult, d: int): Pass {
    Pass(now, r => answer(r, d))
  }

  ghost predicate Listed(list: seq<Snapshot>, i: nat, d: int)
    requires i <= |list|
  {
    exists j :: 0 <= j < i && list[j].id == d
  }

  /** The first `i` candidates have met the rule; everything else is as it was. */
  ghost predicate Partway(t0: Tables, t: Tables, r: Rule, now: int, answer: (int, int) -> SendResult, list: seq<Snapshot>, i: nat)
    requires i <= |list|
  {
    && t.discs.Keys == t0.discs.Keys
    && forall d :: d in t0.discs ==>
         ViewOf(t, d) == if Listed(list, i, d) then RuleView(r, ViewOf(t0, d), PassOf(now, answer, d)) else ViewOf(t0, d)
  }

  lemma OneCandidate(t0: Tables, t: Tables, r: Rule, now: int, answer: (int, int) -> SendResult, list: seq<Snapshot>, i: nat)
    requires i < |list| && Candidates(t0, r, now, list) && Partway(t0, t, r, now, answer, list, i)
    ensures Partway(t0, Acted(t, r, list[i], now, answer(r.id, list[i].id)), r, now, answer, list, i + 1)
  {
    hide Acted, RuleView, Log, OwnNotices, OwnSends, Selects;
    var s, t' := list[i], Acted(t, r, list[i], now, answer(r.id, list[i].id));
    assert !Listed(list, i, s.id);
    assert ViewOf(t, s.id).row == ViewOf(t0, s.id).row;
    ActedView(t, r, s, PassOf(now, answer, s.id), s.id);
    forall d | d in t0.discs
      ensures d in t'.discs && ViewOf(t', d) == if d == s.id then RuleView(r, ViewOf(t, d), PassOf(now, answer, d)) else ViewOf(t, d)
    {
      ActedView(t, r, s, PassOf(now, answer, s.id), d);
    }
    forall d | d in t0.discs ensures Listed(list, i + 1, d) <==> Listed(list, i, d) || d == s.id {
    }
  }

  lemma RuleDone(t0: Tables, t: Tables, r: Rule, now: int, answer: (int, int) -> SendResult, list: seq<Snapshot>)
    requires Candidates(t0, r, now, list) && Partway(t0, t, r, now, answer, list, |list|)
    ensures forall d :: d in t0.discs ==> ViewOf(t, d) == RuleView(r, ViewOf(t0, d), PassOf(now, answer, d))
  {
    hide Log, OwnNotices, OwnSends, Selects, NotifyOnce, Fires;
    forall d | d in t0.discs && !Listed(list, |list|, d)
      ensures RuleView(r, ViewOf(t0, d), PassOf(now, answer, d)) == ViewOf(t0, d)
    {
      assert !Selects(r, now, t0.discs[d]);
    }
  }

  /** Every discrepancy has met these rules in this order. */
  ghost predicate Walked(t0: Tables, t: Tables, rules: seq<Rule>, now: int, answer: (int, int) -> SendResult) {
    && t.discs.Keys == t0.discs.Keys
    && forall d :: d in t0.discs ==> ViewOf(t, d) == Walk(rules, ViewOf(t0, d), PassOf(now, answer, d))
  }

  lemma WalkStarts(t: Tables, now: int, answer: (int, int) -> SendResult)
    ensures Walked(t, t, [], now, answer)
  {
  }

  lemma WalkOn(t0: Tables, t1: Tables, t2: Tables, rules: seq<Rule>, r: Rule, now: int, answer: (int, int) -> SendResult)
    requires Walked(t0, t1, rules, now, answer) && SchemaRules(rules) && ValidTriggerStatus(r.triggerStatus)
    requires t2.discs.Keys == t1.discs.Keys
    requires forall d :: d in t2.discs ==> ViewOf(t2, d) == RuleView(r, ViewOf(t1, d), PassOf(now, answer, d))
    ensures Walked(t0, t2, rules + [r], now, answer)
  {
    hide Log, OwnNotices, OwnSends, RuleView, Walk;
    forall d | d in t0.discs ensures ViewOf(t2, d) == Walk(rules + [r], ViewOf(t0, d), PassOf(now, answer, d)) {
      WalkSnoc(rules, r, ViewOf(t0, d), PassOf(now, answer, d));
    }
  }

  /** The loop interchange. A pass over these tenants leaves each of their discrepancies as its
      own walk through its tenant's priority order leaves it, and the others as they were. */
  ghost predicate PassDone(
    t0: Tables, t: Tables, rules: map<int, Rule>, tenants: set<int>, orders: map<int, seq<Rule>>,
    now: int, answer: (int, int) -> SendResult)
  {
    && orders.Keys == tenants && t.discs.Keys == t0.discs.Keys
    && (forall k :: k in orders ==> PriorityOrder(rules, k, orders[k]))
    && forall d :: d in t0.discs ==>
         var tenant := t0.discs[d].tenant;
         ViewOf(t, d) == if tenant in orders then Walk(orders[tenant], ViewOf(t0, d), PassOf(now, answer, d)) else ViewOf(t0, d)
  }

  lemma {:induction false} WalkKeepsTenant(rules: seq<Rule>, v: View, p: Pass)
    ensures Walk(rules, v, p).row.tenant == v.row.tenant
  {
    if rules != [] {
      WalkKeepsTenant(rules[1..], v, p);
      WalkKeepsTenant(rules[1..], NotifyOnce(rules[0], v, p), p);
    }
  }

  lemma OneTenant(
    t0: Tables, t1: Tables, t2: Tables, rules: map<int, Rule>, tenant: int, orders: map<int, seq<Rule>>, order: seq<Rule>,
    now: int, answer: (int, int) -> SendResult)
    requires PassDone(t0, t1, rules, orders.Keys, orders, now, answer) && tenant !in orders
    requires PriorityOrder(rules, tenant, order) && Walked(t1, t2, order, now, answer)
    ensures PassDone(t0, t2, rules, orders.Keys + {tenant}, orders[tenant := order], now, answer)
  {
    hide Log, OwnNotices, OwnSends, Walk;
    forall d | d in t0.discs && t0.discs[d].tenant != tenant ensures ViewOf(t2, d) == ViewOf(t1, d) {
      var p, own := PassOf(now, answer, d), t0.discs[d].tenant;
      if own in orders {
        WalkKeepsTenant(orders[own], ViewOf(t0, d), p);
      }
      assert ViewOf(t1, d).row.tenant == own;
      assert forall i :: 0 <= i < |order| ==> order[i] in order;
      ForeignWalk(order, ViewOf(t1, d), p);
    }
  }

  /** Idempotence over the whole table: a second pass at the same clock and under the same
      rules, in any tie-break of their priorities, changes no discrepancy and sends nothing. */
  lemma SecondPassChangesNothing(
    t0: Tables, t1: Tables, t2: Tables, rules: map<int, Rule>, tenants: set<int>,
    first: map<int, seq<Rule>>, second: map<int, seq<Rule>>,
    now: int, answer: (int, int) -> SendResult, answer': (int, int) -> SendResult, d: int)
    requires SchemaTable(rules) && d in t0.discs
    requires PassDone(t0, t1, rules, tenants, first, now, answer)
    requires PassDone(t1, t2, rules, tenants, second, now, answer')
    ensures ViewOf(t2, d) == ViewOf(t1, d)
  {
    hide Log, OwnNotices, OwnSends, Walk;
    var tenant, v := t0.discs[d].tenant, ViewOf(t0, d);
    var p, q := PassOf(now, answer, d), PassOf(now, answer', d);
    if tenant in tenants {
      var a, b := first[tenant], second[tenant];
      WalkKeepsTenant(a, v, p);
      assert ViewOf(t1, d).row.tenant == tenant;
      OrdersAgree(rules, tenant, a, b);
      SecondPassIsIdle(a, b, v, p, q);
    } else {
      assert ViewOf(t1, d).row.tenant == tenant;
    }
  }

  /** Confluence over the whole table: whichever way equal priorities are broken, and whatever
      the hub answers, a pass leaves every discrepancy in the same status. */
  lemma TieBreaksAgree(
    t0: Tables, t1: Tables, t2: Tables, rules: map<int, Rule>, tenants: set<int>,
    first: map<int, seq<Rule>>, second: map<int, seq<Rule>>,
    now: int, answer: (int, int) -> SendResult, answer': (int, int) -> SendResult, d: int)
    requires SchemaTable(rules) && d in t0.discs
    requires PassDone(t0, t1, rules, tenants, first, now, answer)
    requires PassDone(t0, t2, rules, tenants, second, now, answer')
    ensures t1.discs[d].status == t2.discs[d].status
  {
    hide Log, OwnNotices, OwnSends, Walk;
    var tenant, v := t0.discs[d].tenant, ViewOf(t0, d);
    assert ViewOf(t1, d).row == t1.discs[d] && ViewOf(t2, d).row == t2.discs[d];
    if tenant in tenants {
      OrdersAgree(rules, tenant, first[tenant], second[tenant]);
      WalkOutcome(first[tenant], v, PassOf(now, answer, d));
      WalkOutcome(second[tenant], v, PassOf(now, answer', d));
    }
  }

  lemma OrdersAgree(rules: map<int, Rule>, tenant: int, a: seq<Rule>, b: seq<Rule>)
    requires SchemaTable(rules) && PriorityOrder(rules, tenant, a) && PriorityOrder(rules, tenant, b)
    ensures SchemaRules(a) && SchemaRules(b) && SameRules(a, b)
  {
    hide ByPriority;
    forall i | 0 <= i < |a| ensures a[i] in b && ValidTriggerStatus(a[i].triggerStatus) { assert a[i] in a; }
    forall i | 0 <= i < |b| ensures b[i] in a && ValidTriggerStatus(b[i].triggerStatus) { assert b[i] in b; }
  }

  // ---------------------------------------------------------------- one rule, whatever fails

  /** The actions on these candidates, one after the other: a failed one does not stop the rest. */
  function PlayList(t: Tables, r: Rule, list: seq<Snapshot>, fate: nat -> Outcome, n: nat, now: int, answer: (int, int) -> SendResult): (Tables, nat) {
    if list == [] then (t, n)
    else
      var (t1, n1) := PlayList(t, r, list[..|list| - 1], fate, n, now, answer);
      Played(t1, r, list[|list| - 1], fate, n1, now, answer)
  }

  /** A rule is evaluated: a listing that fails ends it, a listing that succeeds is worked off. */
  ghost predicate RulePlayed(
    t: Tables, n: nat, r: Rule, fate: nat -> Outcome, now: int, answer: (int, int) -> SendResult, t': Tables, n': nat)
  {
    if fate(n) != Done then t' == t && n' == n + 1
    else exists list :: Candidates(t, r, now, list) && (t', n') == PlayList(t, r, list, fate, n + 1, now, answer)
  }

  lemma Joined(w: World, acts: seq<Act>, more: seq<Act>, t: Tables, e: Engine)
    requires EngineActs(acts) && Run(w, acts).handlers == w.handlers && Leads(Run(w, acts), more, t, e)
    ensures Leads(w, acts + more, t, e)
    ensures NoFailure(acts) && NoFailure(more) ==> NoFailure(acts + more)
  {
    LeadsOn(w, acts, more, t, e);
  }

  lemma LeadsNowhere(w: World)
    ensures Leads(w, [], w.tables, w.engine) && NoFailure([])
  {
  }

  /** The engine has no candidate left. */
  predicate Quiet(e: Engine) {
    e.Idle? || e.pending == []
  }

  lemma {:induction false} ListLeads(
    w: World, r: Rule, list: seq<Snapshot>, k: nat, fate: nat -> Outcome, n: nat, now: int, answer: (int, int) -> SendResult)
    returns (acts: seq<Act>)
    requires w.engine == Working(r, list, Start) && k <= |list|
    ensures Leads(w, acts, PlayList(w.tables, r, list[..k], fate, n, now, answer).0, Working(r, list[k..], Start))
    ensures NeverFails(fate) ==> NoFailure(acts)
  {
    hide Play, Run, NoFailure, NeverFails;
    if k == 0 {
      LeadsNowhere(w);
      acts := [];
      assert list[0..] == list && list[..0] == [];
    } else {
      acts := ListLeads(w, r, list, k - 1, fate, n, now, answer);
      var (t1, n1) := PlayList(w.tables, r, list[..k - 1], fate, n, now, answer);
      var s := list[k - 1];
      assert list[k - 1..] == [s] + list[k..];
      assert list[..k][..k - 1] == list[..k - 1] && list[..k][k - 1] == s;
      var more := PlayLeads(Run(w, acts), r, s, list[k..], Start, fate, n1, now, answer(r.id, s.id));
      Joined(w, acts, more, Played(t1, r, s, fate, n1, now, answer).0, Working(r, list[k..], Start));
      acts := acts + more;
    }
  }

  lemma RuleLeads(
    w: World, n: nat, r: Rule, fate: nat -> Outcome, now: int, answer: (int, int) -> SendResult, t': Tables, n': nat)
    returns (acts: seq<Act>)
    requires RulePlayed(w.tables, n, r, fate, now, answer, t', n') && Quiet(w.engine) && ValidTriggerStatus(r.triggerStatus)
    ensures Leads(w, acts, t', Run(w, acts).engine) && Quiet(Run(w, acts).engine)
    ensures NeverFails(fate) ==> NoFailure(acts)
  {
    hide Play, NoFailure, NeverFails, Candidates;
    LeadsNowhere(w);
    acts := [];
    if fate(n) == Done {
      var list :| Candidates(w.tables, r, now, list) && (t', n') == PlayList(w.tables, r, list, fate, n + 1, now, answer);
      acts := ListedActs(w, r, now, list);
      var more := ListLeads(Run(w, acts), r, list, |list|, fate, n + 1, now, answer);
      assert list[..|list|] == list && list[|list|..] == [];
      Joined(w, acts, more, t', Working(r, [], Start));
      acts := acts + more;
    }
  }

  lemma ListedActs(w: World, r: Rule, now: int, list: seq<Snapshot>) returns (acts: seq<Act>)
    requires Candidates(w.tables, r, now, list) && Quiet(w.engine) && ValidTriggerStatus(r.triggerStatus)
    ensures Leads(w, acts, w.tables, Working(r, list, Start)) && NoFailure(acts)
  {
    acts := [ListCandidates(r, now, list)];
    LeadsOneMore(w, [], acts[0]);
    assert [] + acts == acts;
  }

  lemma {:induction false} ListWalks(
    t: Tables, r: Rule, list: seq<Snapshot>, k: nat, fate: nat -> Outcome, n: nat, now: int, answer: (int, int) -> SendResult)
    requires NeverFails(fate) && Candidates(t, r, now, list) && k <= |list|
    ensures Partway(t, PlayList(t, r, list[..k], fate, n, now, answer).0, r, now, answer, list, k)
  {
    hide Play, NeverFails, Candidates, ViewOf, RuleView, Acted;
    if k == 0 {
      assert list[..0] == [];
    } else {
      ListWalks(t, r, list, k - 1, fate, n, now, answer);
      var (t1, n1) := PlayList(t, r, list[..k - 1], fate, n, now, answer);
      assert list[..k][..k - 1] == list[..k - 1] && list[..k][k - 1] == list[k - 1];
      PlayedIsActed(t1, r, list[k - 1], fate, n1, now, answer);
      OneCandidate(t, t1, r, now, answer, list, k - 1);
    }
  }

  lemma RuleWalks(
    t: Tables, n: nat, r: Rule, fate: nat -> Outcome, now: int, answer: (int, int) -> SendResult, t': Tables, n': nat)
    requires RulePlayed(t, n, r, fate, now, answer, t', n') && NeverFails(fate)
    ensures t'.discs.Keys == t.discs.Keys
    ensures forall d :: d in t.discs ==> ViewOf(t', d) == RuleView(r, ViewOf(t, d), PassOf(now, answer, d))
  {
    hide Play, Candidates, RuleView;
    assert fate(n) == Done;
    var list :| Candidates(t, r, now, list) && (t', n') == PlayList(t, r, list, fate, n + 1, now, answer);
    assert list[..|list|] == list;
    ListWalks(t, r, list, |list|, fate, n + 1, now, answer);
    RuleDone(t, t', r, now, answer, list);
  }

  // ---------------------------------------------------------------- one tenant, whatever fails

  /** Rules are evaluated one after the other: a failed one does not stop the rest. */
  ghost predicate RulesPlayed(
    t: Tables, n: nat, list: seq<Rule>, fate: nat -> Outcome, now: int, answer: (int, int) -> SendResult, t': Tables, n': nat)
  {
    if list == [] then t' == t && n' == n
    else
      var pre, r := list[..|list| - 1], list[|list| - 1];
      exists t1, n1: nat ::
        RulesPlayed(t, n, pre, fate, now, answer, t1, n1) && RulePlayed(t1, n1, r, fate, now, answer, t', n')
  }

  /** A tenant is evaluated: its active rules by priority, unless their listing fails. */
  ghost predicate TenantPlayed(
    t: Tables, n: nat, rules: map<int, Rule>, tenant: int, fate: nat -> Outcome, now: int, answer: (int, int) -> SendResult,
    t': Tables, n': nat)
  {
    if fate(n) != Done then t' == t && n' == n + 1
    else exists order :: PriorityOrder(rules, tenant, order) && RulesPlayed(t, n + 1, order, fate, now, answer, t', n')
  }

  lemma RulesPlayedOn(
    t: Tables, n: nat, list: seq<Rule>, r: Rule, fate: nat -> Outcome, now: int, answer: (int, int) -> SendResult,
    t1: Tables, n1: nat, t': Tables, n': nat)
    requires RulesPlayed(t, n, list, fate, now, answer, t1, n1) && RulePlayed(t1, n1, r, fate, now, answer, t', n')
    ensures RulesPlayed(t, n, list + [r], fate, now, answer, t', n')
  {
    hide RulePlayed;
    assert (list + [r])[..|list|] == list;
  }

  lemma {:induction false} RulesLead(
    w: World, n: nat, list: seq<Rule>, fate: nat -> Outcome, now: int, answer: (int, int) -> SendResult, t': Tables, n': nat)
    returns (acts: seq<Act>)
    requires RulesPlayed(w.tables, n, list, fate, now, answer, t', n') && Quiet(w.engine) && SchemaRules(list)
    ensures Leads(w, acts, t', Run(w, acts).engine) && Quiet(Run(w, acts).engine)
    ensures NeverFails(fate) ==> NoFailure(acts)
  {
    hide RulePlayed, NoFailure, NeverFails;
    LeadsNowhere(w);
    acts := [];
    if list != [] {
      var k := |list| - 1;
      var t1, n1: nat :| RulesPlayed(w.tables, n, list[..k], fate, now, answer, t1, n1)
                      && RulePlayed(t1, n1, list[k], fate, now, answer, t', n');
      assert forall i :: 0 <= i < k ==> list[..k][i] == list[i];
      acts := RulesLead(w, n, list[..k], fate, now, answer, t1, n1);
      var more := RuleLeads(Run(w, acts), n1, list[k], fate, now, answer, t', n');
      Joined(w, acts, more, t', Run(Run(w, acts), more).engine);
      RunConcat(w, acts, more);
      acts := acts + more;
    }
  }

  lemma {:induction false} RulesWalk(
    t: Tables, n: nat, list: seq<Rule>, fate: nat -> Outcome, now: int, answer: (int, int) -> SendResult, t': Tables, n': nat)
    requires RulesPlayed(t, n, list, fate, now, answer, t', n') && SchemaRules(list) && NeverFails(fate)
    ensures Walked(t, t', list, now, answer)
  {
    hide RulePlayed, NeverFails, Walked, ViewOf, RuleView;
    if list == [] {
      WalkStarts(t, now, answer);
    } else {
      var k := |list| - 1;
      var t1, n1: nat :| RulesPlayed(t, n, list[..k], fate, now, answer, t1, n1)
                      && RulePlayed(t1, n1, list[k], fate, now, answer, t', n');
      assert forall i :: 0 <= i < k ==> list[..k][i] == list[i];
      RulesWalk(t, n, list[..k], fate, now, answer, t1, n1);
      RuleWalks(t1, n1, list[k], fate, now, answer, t', n');
      assert list == list[..k] + [list[k]];
      WalkOn(t, t1, t', list[..k], list[k], now, answer);
    }
  }

  lemma OrderIsSchema(rules: map<int, Rule>, tenant: int, order: seq<Rule>)
    requires SchemaTable(rules) && PriorityOrder(rules, tenant, order)
    ensures SchemaRules(order)
  {
    forall i | 0 <= i < |order| ensures ValidTriggerStatus(order[i].triggerStatus) { assert order[i] in order; }
  }

  // ---------------------------------------------------------------- a pass, whatever fails

  /** Tenants are evaluated one after the other: a failed one does not stop the rest. */
  ghost predicate TenantsPlayed(
    t: Tables, n: nat, rules: map<int, Rule>, ids: seq<int>, fate: nat -> Outcome, now: int, answer: (int, int) -> SendResult,
    t': Tables, n': nat)
  {
    if ids == [] then t' == t && n' == n
    else
      var pre, id := ids[..|ids| - 1], ids[|ids| - 1];
      exists t1, n1: nat ::
        && TenantsPlayed(t, n, rules, pre, fate, now, answer, t1, n1)
        && TenantPlayed(t1, n1, rules, id, fate, now, answer, t', n')
  }

  ghost predicate Lists(ids: seq<int>, tenants: set<int>) {
    && (forall i, j :: 0 <= i < j < |ids| ==> ids[i] != ids[j])
    && (forall k :: k in tenants <==> k in ids)
  }

  /** A pass: every active tenant once, unless their listing fails. */
  ghost predicate PassPlayed(
    t: Tables, n: nat, rules: map<int, Rule>, tenants: set<int>, fate: nat -> Outcome, now: int,
    answer: (int, int) -> SendResult, t': Tables, n': nat)
  {
    if fate(n) != Done then t' == t && n' == n + 1
    else exists ids :: Lists(ids, tenants) && TenantsPlayed(t, n + 1, rules, ids, fate, now, answer, t', n')
  }

  lemma TenantsPlayedOn(
    t: Tables, n: nat, rules: map<int, Rule>, ids: seq<int>, id: int, fate: nat -> Outcome, now: int,
    answer: (int, int) -> SendResult, t1: Tables, n1: nat, t': Tables, n': nat)
    requires TenantsPlayed(t, n, rules, ids, fate, now, answer, t1, n1)
    requires TenantPlayed(t1, n1, rules, id, fate, now, answer, t', n')
    ensures TenantsPlayed(t, n, rules, ids + [id], fate, now, answer, t', n')
  {
    hide TenantPlayed;
    assert (ids + [id])[..|ids|] == ids;
  }

  lemma TenantLeads(
    w: World, n: nat, rules: map<int, Rule>, tenant: int, fate: nat -> Outcome, now: int,
    answer: (int, int) -> SendResult, t': Tables, n': nat)
    returns (acts: seq<Act>)
    requires TenantPlayed(w.tables, n, rules, tenant, fate, now, answer, t', n') && Quiet(w.engine) && SchemaTable(rules)
    ensures Leads(w, acts, t', Run(w, acts).engine) && Quiet(Run(w, acts).engine)
    ensures NeverFails(fate) ==> NoFailure(acts)
  {
    hide RulesPlayed, NoFailure, NeverFails, PriorityOrder;
    LeadsNowhere(w);
    acts := [];
    if fate(n) == Done {
      var order :| PriorityOrder(rules, tenant, order) && RulesPlayed(w.tables, n + 1, order, fate, now, answer, t', n');
      OrderIsSchema(rules, tenant, order);
      acts := RulesLead(w, n + 1, order, fate, now, answer, t', n');
    }
  }

  lemma {:induction false} TenantsLead(
    w: World, n: nat, rules: map<int, Rule>, ids: seq<int>, fate: nat -> Outcome, now: int,
    answer: (int, int) -> SendResult, t': Tables, n': nat)
    returns (acts: seq<Act>)
    requires TenantsPlayed(w.tables, n, rules, ids, fate, now, answer, t', n') && Quiet(w.engine) && SchemaTable(rules)
    ensures Leads(w, acts, t', Run(w, acts).engine) && Quiet(Run(w, acts).engine)
    ensures NeverFails(fate) ==> NoFailure(acts)
  {
    hide TenantPlayed, NoFailure, NeverFails, SchemaTable;
    LeadsNowhere(w);
    acts := [];
    if ids != [] {
      var k := |ids| - 1;
      var t1, n1: nat :| TenantsPlayed(w.tables, n, rules, ids[..k], fate, now, answer, t1, n1)
                      && TenantPlayed(t1, n1, rules, ids[k], fate, now, answer, t', n');
      acts := TenantsLead(w, n, rules, ids[..k], fate, now, answer, t1, n1);
      var more := TenantLeads(Run(w, acts), n1, rules, ids[k], fate, now, answer, t', n');
      Joined(w, acts, more, t', Run(Run(w, acts), more).engine);
      RunConcat(w, acts, more);
      acts := acts + more;
    }
  }

  /** Whatever fails, a pass is a run of the machine, serial for every discrepancy that no handler
      is halfway through ingesting. */
  lemma PassLeads(
    w: World, n: nat, rules: map<int, Rule>, tenants: set<int>, fate: nat -> Outcome, now: int,
    answer: (int, int) -> SendResult, t': Tables, n': nat)
    returns (acts: seq<Act>)
    requires PassPlayed(w.tables, n, rules, tenants, fate, now, answer, t', n') && Quiet(w.engine) && SchemaTable(rules)
    ensures Leads(w, acts, t', Run(w, acts).engine) && Quiet(Run(w, acts).engine)
    ensures NeverFails(fate) ==> NoFailure(acts)
    ensures forall d :: !HandlerHolds(w, d) ==> SerialFrom(w, acts, d)
  {
    hide TenantsPlayed, NoFailure, NeverFails, SchemaTable, Lists, HandlerHolds, SerialFrom;
    LeadsNowhere(w);
    acts := [];
    if fate(n) == Done {
      var ids :| Lists(ids, tenants) && TenantsPlayed(w.tables, n + 1, rules, ids, fate, now, answer, t', n');
      acts := TenantsLead(w, n + 1, rules, ids, fate, now, answer, t', n');
    }
    forall d | !HandlerHolds(w, d) ensures SerialFrom(w, acts, d) {
      EngineAloneIsSerial(w, acts, d);
    }
  }

  lemma {:induction false} TenantsWalk(
    t: Tables, n: nat, rules: map<int, Rule>, ids: seq<int>, fate: nat -> Outcome, now: int,
    answer: (int, int) -> SendResult, t': Tables, n': nat)
    returns (orders: map<int, seq<Rule>>)
    requires TenantsPlayed(t, n, rules, ids, fate, now, answer, t', n') && SchemaTable(rules) && NeverFails(fate)
    requires forall i, j :: 0 <= i < j < |ids| ==> ids[i] != ids[j]
    ensures PassDone(t, t', rules, orders.Keys, orders, now, answer) && forall k :: k in orders <==> k in ids
  {
    hide NeverFails, PriorityOrder, Walked, RulesPlayed, SchemaTable, ViewOf;
    orders := map[];
    if ids != [] {
      var k := |ids| - 1;
      var t1, n1: nat :| TenantsPlayed(t, n, rules, ids[..k], fate, now, answer, t1, n1)
                      && TenantPlayed(t1, n1, rules, ids[k], fate, now, answer, t', n');
      orders := TenantsWalk(t, n, rules, ids[..k], fate, now, answer, t1, n1);
      Reliable(fate, n1);
      var order :| PriorityOrder(rules, ids[k], order) && RulesPlayed(t1, n1 + 1, order, fate, now, answer, t', n');
      OrderIsSchema(rules, ids[k], order);
      RulesWalk(t1, n1 + 1, order, fate, now, answer, t', n');
      assert ids[k] !in ids[..k];
      OneTenant(t, t1, t', rules, ids[k], orders, order, now, answer);
      assert orders.Keys + {ids[k]} == orders[ids[k] := order].Keys;
      assert ids == ids[..k] + [ids[k]];
      orders := orders[ids[k] := order];
    }
  }

  lemma Reliable(fate: nat -> Outcome, n: nat)
    requires NeverFails(fate)
    ensures fate(n) == Done
  {
  }

  /** The loop interchange. Without failures a pass leaves each discrepancy of an active tenant as
      its own walk through its tenant's priority order leaves it, and the others as they were. */
  lemma PassWalks(
    t: Tables, n: nat, rules: map<int, Rule>, tenants: set<int>, fate: nat -> Outcome, now: int,
    answer: (int, int) -> SendResult, t': Tables, n': nat)
    returns (orders: map<int, seq<Rule>>)
    requires PassPlayed(t, n, rules, tenants, fate, now, answer, t', n') && SchemaTable(rules) && NeverFails(fate)
    ensures PassDone(t, t', rules, tenants, orders, now, answer)
  {
    hide NeverFails, PriorityOrder, SchemaTable, TenantsPlayed, ViewOf;
    Reliable(fate, n);
    var ids :| Lists(ids, tenants) && TenantsPlayed(t, n + 1, rules, ids, fate, now, answer, t', n');
    orders := TenantsWalk(t, n + 1, rules, ids, fate, now, answer, t', n');
    assert forall k :: k in orders.Keys <==> k in tenants;
    assert orders.Keys == tenants;
  }

  // ---------------------------------------------------------------- the engine

  // ---------------------------------------------------------------- nothing listed is left out

  lemma {:induction false} CountedOnce(list: seq<int>, all: set<int>)
    requires forall i, j :: 0 <= i < j < |list| ==> list[i] != list[j]
    requires forall x :: x in all <==> x in list
    ensures |list| == |all|
  {
    if list == [] {
      assert forall x :: x in all ==> x in list;
      EmptyOrNot(all);
      assert |all| == 0;
    } else {
      var m := |list| - 1;
      CountedOnce(list[..m], all - {list[m]});
    }
  }

  lemma EachCandidateOnce(t: Tables, r: Rule, now: int, list: seq<Snapshot>)
    requires Candidates(t, r, now, list)
    ensures |list| == |set d | d in t.discs && Selects(r, now, t.discs[d])|
  {
    hide Selects;
    var ids := seq(|list|, i requires 0 <= i < |list| => list[i].id);
    assert forall i :: 0 <= i < |list| ==> ids[i] == list[i].id;
    CountedOnce(ids, set d | d in t.discs && Selects(r, now, t.discs[d]));
  }

  lemma EachRuleOnce(rules: map<int, Rule>, tenant: int, list: seq<Rule>)
    requires SchemaTable(rules) && PriorityOrder(rules, tenant, list)
    ensures |list| == |set k | k in rules && rules[k].tenant == tenant && rules[k].isActive|
  {
    var ids := seq(|list|, i requires 0 <= i < |list| => list[i].id);
    assert forall i :: 0 <= i < |list| ==> ids[i] == list[i].id && list[i] in list;
    var all := set k | k in rules && rules[k].tenant == tenant && rules[k].isActive;
    forall k | k in all ensures k in ids {
      assert rules[k] in list;
      var i :| 0 <= i < |list| && list[i] == rules[k];
      assert ids[i] == k;
    }
    CountedOnce(ids, all);
  }

  class Escalator {
    const db: Backend

    constructor (db: Backend)
      ensures this.db == db
    {
      this.db := db;
    }

    /** The status update of an action whose checks have passed, and its event. */
    method WriteStatus(r: Rule, s: Snapshot, now: int, status: Status, at: Option<int>, kind: EventKind)
      requires s.id in db.discs && r.action != Notify
      requires status == Target(r.action) && at == ClosingTime(r.action, now) && kind == EffectKind(r.action)
      modifies db`calls, db`discs, db`events, db`lastSeq
      ensures (db.Contents(), db.calls)
           == Play(old(db.Contents()), r, s, Ready, db.fate, old(db.calls), now, db.answer(r.id, s.id))
      ensures db.discs.Keys == old(db.discs.Keys)
    {
      hide HasEvent, HasNotice, NotifyStep, ParseSeverity;
      ghost var t, n := db.Contents(), db.calls;
      var o := db.UpdateStatus(s.id, status, at);
      assert o == Done ==>
        Play(t, r, s, Ready, db.fate, n, now, db.answer(r.id, s.id))
        == Play(db.Contents(), r, s, Written, db.fate, n + 1, now, db.answer(r.id, s.id));
      if o != Done {
        return;
      }
      o := db.AppendEvent(s.id, kind, ByRule(r.id));
    }

    method ExecuteEscalate(r: Rule, s: Snapshot, now: int)
      requires s.id in db.discs && r.action == Escalate
      modifies db`calls, db`discs, db`events, db`lastSeq
      ensures (db.Contents(), db.calls) == Played(old(db.Contents()), r, s, db.fate, old(db.calls), now, db.answer)
      ensures db.discs.Keys == old(db.discs.Keys)
    {
      hide HasEvent, HasNotice, NotifyStep, ParseSeverity, SetStatus, Append;
      var o, already := db.ExistsForDiscrepancy(s.id, EvEscalated);
      if o != Done || already || !ValidTransition(s.row.status, Escalated) {
        return;
      }
      if r.newSeverity.Some? {
        ghost var t, n := db.Contents(), db.calls;
        var ok;
        o, ok := db.UpdateSeverity(s.id, r.newSeverity.value);
        assert ok ==>
          Play(t, r, s, Cleared, db.fate, n, now, db.answer(r.id, s.id))
          == Play(db.Contents(), r, s, Ready, db.fate, n + 1, now, db.answer(r.id, s.id));
        if !ok {
          return;
        }
      }
      WriteStatus(r, s, now, Escalated, None, EvEscalated);
    }

    method ExecuteAutoClose(r: Rule, s: Snapshot, now: int)
      requires s.id in db.discs && r.action == AutoClose
      modifies db`calls, db`discs, db`events, db`lastSeq
      ensures (db.Contents(), db.calls) == Played(old(db.Contents()), r, s, db.fate, old(db.calls), now, db.answer)
      ensures db.discs.Keys == old(db.discs.Keys)
    {
      hide HasEvent, HasNotice, NotifyStep, ParseSeverity;
      var o, already := db.ExistsForDiscrepancy(s.id, EvAutoClosed);
      if o != Done || already || !ValidTransition(s.row.status, AutoClosed) {
        return;
      }

      WriteStatus(r, s, now, AutoClosed, Some(now), EvAutoClosed);
    }

    method ExecuteNotify(r: Rule, s: Snapshot, now: int)
      requires r.action == Notify
      modifies db`calls, db`notices, db`sends
      ensures (db.Contents(), db.calls) == Played(old(db.Contents()), r, s, db.fate, old(db.calls), now, db.answer)
    {
      hide HasEvent, HasNotice, ChangeStep;
      var o, already := db.NotificationExists(r.id, s.id);
      if o != Done || already {
        return;
      }

      ghost var t1, n1 := db.Contents(), db.calls;
      var row;
      o, row := db.CreateNotification(r.id, s.id);
      assert o == Done ==>
        Play(t1, r, s, Cleared, db.fate, n1, now, db.answer(r.id, s.id))
        == Play(db.Contents(), r, s, Logged(row), db.fate, n1 + 1, now, db.answer(r.id, s.id));
      if o != Done {
        return;
      }

      ghost var t2, n2 := db.Contents(), db.calls;
      var result := db.SendEvent(r.id, s.id);
      assert Play(t2, r, s, Logged(row), db.fate, n2, now, db.answer(r.id, s.id))
          == Play(db.Contents(), r, s, Answered(row, result), db.fate, n2, now, db.answer(r.id, s.id));
      var status := NotifFailed;
      if result.Replied? {
        status := NotifSent;
        if result.skipped {
          status := NotifPending;
        }
      }
      o := db.UpdateNotification(row, status, 1);
    }

    method ExecuteAction(r: Rule, s: Snapshot, now: int)
      requires s.id in db.discs
      modifies db`calls, db`discs, db`events, db`lastSeq, db`notices, db`sends
      ensures (db.Contents(), db.calls) == Played(old(db.Contents()), r, s, db.fate, old(db.calls), now, db.answer)
      ensures StopsAtFailure(db.fate, old(db.calls), db.calls, old(db.Contents()), db.Contents())
      ensures db.discs.Keys == old(db.discs.Keys)
    {
      PlayStops(db.Contents(), r, s, db.fate, db.calls, now, db.answer);
      hide Played, StopsAtFailure;
      match r.action
      case Notify => ExecuteNotify(r, s, now);
      case Escalate => ExecuteEscalate(r, s, now);
      case AutoClose => ExecuteAutoClose(r, s, now);
    }

    method EvaluateRule(r: Rule, now: int)
      modifies db`calls, db`discs, db`events, db`lastSeq, db`notices, db`sends
      ensures RulePlayed(old(db.Contents()), old(db.calls), r, db.fate, now, db.answer, db.Contents(), db.calls)
      ensures db.calls > old(db.calls)
      ensures db.fate(old(db.calls)) == Done ==>
        db.calls - old(db.calls) > |set d | d in old(db.discs) && Selects(r, now, old(db.discs)[d])|
    {
      hide Played, Play, Selects;
      ghost var t0 := db.Contents();
      var ok, list := db.ListForEscalation(r, now);
      EachCandidateOnce(t0, r, now, list);
      if !ok {
        return;
      }
      ghost var n := db.calls;
      assert list[..0] == [];
      for i := 0 to |list|
        invariant db.discs.Keys == t0.discs.Keys
        invariant (db.Contents(), db.calls) == PlayList(t0, r, list[..i], db.fate, n, now, db.answer)
        invariant db.calls >= n + i
      {
        assert list[..i + 1][..i] == list[..i];
        ExecuteAction(r, list[i], now);
      }
      assert list[..|list|] == list;
    }

    method EvaluateTenant(tenant: int, now: int)
      requires SchemaTable(db.rules)
      modifies db`calls, db`discs, db`events, db`lastSeq, db`notices, db`sends
      ensures TenantPlayed(old(db.Contents()), old(db.calls), db.rules, tenant, db.fate, now, db.answer,
                           db.Contents(), db.calls)
      ensures db.calls > old(db.calls)
      ensures db.fate(old(db.calls)) == Done ==>
        db.calls - old(db.calls) > |set k | k in db.rules && db.rules[k].tenant == tenant && db.rules[k].isActive|
    {
      hide RulePlayed, PriorityOrder, Selects;
      ghost var t0 := db.Contents();
      var ok, list := db.ListRules(tenant);
      EachRuleOnce(db.rules, tenant, list);
      if !ok {
        return;
      }
      ghost var n := db.calls;
      assert list[..0] == [];
      for i := 0 to |list|
        invariant RulesPlayed(t0, n, list[..i], db.fate, now, db.answer, db.Contents(), db.calls)
        invariant db.calls >= n + i
      {
        ghost var t1, n1 := db.Contents(), db.calls;
        EvaluateRule(list[i], now);
        RulesPlayedOn(t0, n, list[..i], list[i], db.fate, now, db.answer, t1, n1, db.Contents(), db.calls);
        assert list[..i] + [list[i]] == list[..i + 1];
      }
      assert list[..|list|] == list;
    }

    /** A pass over all active tenants, whatever fails, and what it means: it is a run of the
        machine, and without failures takes every discrepancy of an active tenant through its
        tenant's rules, the ones of lower priority number first, on its own. */
    method Evaluate(now: int, ghost w: World) returns (ghost acts: seq<Act>, ghost orders: map<int, seq<Rule>>)
      requires w.tables == db.Contents() && Quiet(w.engine) && SchemaTable(db.rules)
      modifies db`calls, db`discs, db`events, db`lastSeq, db`notices, db`sends
      ensures PassPlayed(old(db.Contents()), old(db.calls), db.rules, db.activeTenants, db.fate, now, db.answer,
                         db.Contents(), db.calls)
      ensures Leads(w, acts, db.Contents(), Run(w, acts).engine) && Quiet(Run(w, acts).engine)
      ensures forall d :: !HandlerHolds(w, d) ==> SerialFrom(w, acts, d)
      ensures db.fate(old(db.calls)) == Done ==> db.calls - old(db.calls) > |db.activeTenants|
      ensures NeverFails(db.fate) ==> NoFailure(acts)
      ensures NeverFails(db.fate) ==>
        && PassDone(old(db.Contents()), db.Contents(), db.rules, db.activeTenants, orders, now, db.answer)
        && (forall k, i, j :: k in orders && 0 <= i < j < |orders[k]| ==> orders[k][i].priority <= orders[k][j].priority)
    {
      hide TenantPlayed, NeverFails, Leads, HandlerHolds, SerialFrom, NoFailure, SchemaTable;
      ghost var t0, n0 := db.Contents(), db.calls;
      var ok, ids := db.GetActiveTenantIds();
      if ok {
        ghost var n := db.calls;
        CountedOnce(ids, db.activeTenants);
        assert ids[..0] == [];
        for i := 0 to |ids|
          invariant TenantsPlayed(t0, n, db.rules, ids[..i], db.fate, now, db.answer, db.Contents(), db.calls)
          invariant db.calls >= n + i
        {
          ghost var t1, n1 := db.Contents(), db.calls;
          EvaluateTenant(ids[i], now);
          TenantsPlayedOn(t0, n, db.rules, ids[..i], ids[i], db.fate, now, db.answer, t1, n1, db.Contents(), db.calls);
          assert ids[..i] + [ids[i]] == ids[..i + 1];
        }
        assert ids[..|ids|] == ids;
        assert Lists(ids, db.activeTenants);
      }
      acts := PassLeads(w, n0, db.rules, db.activeTenants, db.fate, now, db.answer, db.Contents(), db.calls);
      orders := map[];
      if NeverFails(db.fate) {
        orders := PassWalks(t0, n0, db.rules, db.activeTenants, db.fate, now, db.answer, db.Contents(), db.calls);
      }
    }
  }
}
