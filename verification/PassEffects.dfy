/**
 What a pass without failures does to one discrepancy, in the terms of its row and its tenant's
 rules: when it is left alone, which rule changes it and how, and who is notified of it.
*/
module PassEffects {
  import opened Domain
  import opened Ledger
  import opened Machine
  import opened Escalation
  import opened Store
  import opened EscalationEngine

  /** The hours of the rules fit a duration. */
  predicate HoursFit(rules: map<int, Rule>) {
    forall k :: k in rules ==> -2_562_047 <= rules[k].triggerAfterHrs <= 2_562_047
  }

  /** An active rule that suits the discrepancy and can change it: an auto-close rule an open one
      that was never auto-closed, an escalate rule one under investigation that was never
      escalated, if the rule names a severity at all that there is. */
  ghost predicate Changes(r: Rule, v: View, now: int) {
    && r.isActive && Suits(r, v.row, now)
    && match r.action
       case Notify => false
       case AutoClose =>
         v.row.status == Open && forall i :: 0 <= i < |v.log| ==> v.log[i].kind != EvAutoClosed
       case Escalate =>
         && v.row.status == Investigating && (forall i :: 0 <= i < |v.log| ==> v.log[i].kind != EvEscalated)
         && (r.newSeverity.Some? ==> exists s :: r.newSeverity.value == SeverityName(s))
  }

  /** The change: the row closed now, or escalated without a resolved time and with the severity the
      rule names, if any; and the event, which names the rule. */
  predicate ChangedBy(r: Rule, v: View, w: View, now: int) {
    if r.action == AutoClose then
      && w.row == v.row.(status := AutoClosed, resolvedAt := Some(now))
      && w.log == v.log + [Entry(EvAutoClosed, ByRule(r.id))]
    else
      && w.row == v.row.(status := Escalated, resolvedAt := None, severity := w.row.severity)
      && (if r.newSeverity.Some? then SeverityName(w.row.severity) == r.newSeverity.value
          else w.row.severity == v.row.severity)
      && w.log == v.log + [Entry(EvEscalated, ByRule(r.id))]
  }

  lemma FiresIffChanges(r: Rule, v: View, p: Pass)
    requires -2_562_047 <= r.triggerAfterHrs <= 2_562_047 && r.isActive
    ensures Matches(r, v, p) <==> Suits(r, v.row, p.now)
    ensures Fires(r, v, p) <==> Changes(r, v, p.now)
    ensures Fires(r, v, p) ==> ChangedBy(r, v, Fire(r, v, p), p.now)
  {
    SelectsSuits(r, v.row, p.now);
    hide Selects, Suits, ParseSeverity, SeverityName;
    if r.newSeverity.Some? {
      forall s ensures ParseSeverity(r.newSeverity.value) == Some(s) <==> r.newSeverity.value == SeverityName(s) {
        SeverityNamed(r.newSeverity.value, s);
      }
    }
  }

  // ---------------------------------------------------------------- one order

  /** The first rule of the order that fires, if any does. */
  lemma FirstFiring(order: seq<Rule>, v: View, p: Pass) returns (n: nat)
    ensures n <= |order| && (n < |order| ==> Fires(order[n], v, p))
    ensures forall i :: 0 <= i < n ==> !Fires(order[i], v, p)
  {
    hide Fires;
    n := 0;
    while n < |order| && !Fires(order[n], v, p)
      invariant n <= |order| && forall i :: 0 <= i < n ==> !Fires(order[i], v, p)
    {
      n := n + 1;
    }
  }

  function Logs(result: SendResult): NotifStatus {
    match result
    case SendFailed => NotifFailed
    case Replied(true) => NotifPending
    case Replied(false) => NotifSent
  }

  /** The send that goes with notice number `i` of `w`, among those beyond `v`. */
  function SendFor(v: View, w: View, i: nat): int
    requires |v.notices| <= i < |w.notices| && |w.notices| - |v.notices| == |w.sends| - |v.sends|
  {
    w.sends[|v.sends| + i - |v.notices|]
  }

  /** Notice number `i` of `w` and its send are those of one of these rules, which suits the
      discrepancy and had not notified of it before. */
  ghost predicate Added(order: seq<Rule>, v: View, w: View, i: nat, p: Pass)
    requires |v.notices| <= i < |w.notices| && |w.notices| - |v.notices| == |w.sends| - |v.sends|
  {
    exists m | 0 <= m < |order| ::
      && order[m].action == Notify && Matches(order[m], v, p) && !Noticed(v, order[m].id)
      && w.notices[i] == OwnNotice(order[m].id, Logs(p.answer(order[m].id)), 1)
      && SendFor(v, w, i) == order[m].id
  }

  /** What a walk adds to notices and sends: one of each per rule that notifies, in step. */
  ghost predicate AddsNotices(order: seq<Rule>, v: View, w: View, p: Pass) {
    && v.notices <= w.notices && v.sends <= w.sends && |w.notices| - |v.notices| == |w.sends| - |v.sends|
    && forall i: nat | |v.notices| <= i < |w.notices| :: Added(order, v, w, i, p)
  }

  lemma NotifyAdds(order: seq<Rule>, v: View, w: View, p: Pass)
    requires order != [] && order[0].action == Notify && Matches(order[0], v, p)
    requires AddsNotices(order[1..], NotifyOnce(order[0], v, p), w, p)
    ensures AddsNotices(order, v, w, p)
  {
    hide Selects;
    var u := NotifyOnce(order[0], v, p);
    forall i: nat | |v.notices| <= i < |w.notices| ensures Added(order, v, w, i, p) {
      if i < |u.notices| {
        assert w.notices[i] == u.notices[i] && SendFor(v, w, i) == u.sends[|v.sends|];
        assert order[0].action == Notify;
      } else {
        assert Added(order[1..], u, w, i, p);
        var m :| 0 <= m < |order[1..]| && order[1..][m].action == Notify && Matches(order[1..][m], u, p)
              && !Noticed(u, order[1..][m].id) && SendFor(u, w, i) == order[1..][m].id
              && w.notices[i] == OwnNotice(order[1..][m].id, Logs(p.answer(order[1..][m].id)), 1);
        StillUnnoticed(v, u, order[1..][m].id);
        assert order[m + 1] == order[1..][m] && SendFor(v, w, i) == SendFor(u, w, i);
      }
    }
  }

  lemma SkipAdds(order: seq<Rule>, v: View, w: View, p: Pass)
    requires order != [] && AddsNotices(order[1..], v, w, p)
    ensures AddsNotices(order, v, w, p)
  {
    hide Matches, Noticed;
    forall i: nat | |v.notices| <= i < |w.notices| ensures Added(order, v, w, i, p) {
      assert Added(order[1..], v, w, i, p);
      var m :| 0 <= m < |order[1..]| && order[1..][m].action == Notify && Matches(order[1..][m], v, p)
            && !Noticed(v, order[1..][m].id) && SendFor(v, w, i) == order[1..][m].id
            && w.notices[i] == OwnNotice(order[1..][m].id, Logs(p.answer(order[1..][m].id)), 1);
      assert order[m + 1] == order[1..][m];
    }
  }

  lemma StillUnnoticed(v: View, u: View, rule: int)
    requires v.notices <= u.notices && !Noticed(u, rule)
    ensures !Noticed(v, rule)
  {
    if Noticed(v, rule) {
      StaysNoticed(v, u, rule);
    }
  }

  lemma {:induction false} WalkNotifies(order: seq<Rule>, v: View, p: Pass)
    requires SchemaRules(order)
    ensures AddsNotices(order, v, Walk(order, v, p), p)
    ensures forall m | 0 <= m < |order| && order[m].action == Notify && Matches(order[m], v, p) ::
      (forall j :: 0 <= j < m ==> !Fires(order[j], v, p)) ==> Noticed(Walk(order, v, p), order[m].id)
  {
    hide Matches, Fires, NotifyOnce;
    if order != [] && !Fires(order[0], v, p) {
      var r, w := order[0], Walk(order, v, p);
      var u := if Matches(r, v, p) && r.action == Notify then NotifyOnce(r, v, p) else v;
      WalkNotifies(order[1..], u, p);
      if Matches(r, v, p) && r.action == Notify {
        NotifyAdds(order, v, w, p);
        NotifyNotices(r, v, p);
        WalkOutcome(order[1..], u, p);
        StaysNoticed(u, w, r.id);
      } else {
        SkipAdds(order, v, w, p);
      }
      forall m | 0 <= m < |order| && order[m].action == Notify && Matches(order[m], v, p)
        && (forall j :: 0 <= j < m ==> !Fires(order[j], v, p))
        ensures Noticed(w, order[m].id)
      {
        if m > 0 {
          forall j | 0 <= j < m ensures Fires(order[j], u, p) <==> Fires(order[j], v, p) {
            Neutral(r, v, p, order[j]);
          }
          Neutral(r, v, p, order[m]);
          assert order[1..][m - 1] == order[m];
          assert forall j :: 0 <= j < m - 1 ==> order[1..][j] == order[j + 1];
        }
      }
    } else if order != [] {
      FireKeepsNotices(order[0], v, p);
    }
  }

  lemma Neutral(r: Rule, v: View, p: Pass, s: Rule)
    ensures Fires(s, NotifyOnce(r, v, p), p) <==> Fires(s, v, p)
    ensures Matches(s, NotifyOnce(r, v, p), p) <==> Matches(s, v, p)
  {
    NotifyIsNeutral(r, v, p, s);
  }

  lemma FireKeepsNotices(r: Rule, v: View, p: Pass)
    requires Fires(r, v, p)
    ensures Fire(r, v, p).notices == v.notices && Fire(r, v, p).sends == v.sends && !(Matches(r, v, p) && r.action == Notify)
  {
  }

  // ---------------------------------------------------------------- a pass

  /** The active rules of a tenant and no others, the lowest priority first, each once. */
  lemma OrderTells(rules: map<int, Rule>, tenant: int, order: seq<Rule>)
    requires SchemaTable(rules) && PriorityOrder(rules, tenant, order)
    ensures SchemaRules(order)
    ensures forall i | 0 <= i < |order| ::
      order[i].id in rules && rules[order[i].id] == order[i] && order[i].tenant == tenant && order[i].isActive
    ensures forall k | k in rules && rules[k].tenant == tenant && rules[k].isActive ::
      exists i :: 0 <= i < |order| && order[i] == rules[k]
    ensures forall i, j :: 0 <= i < j < |order| ==> order[i].priority <= order[j].priority
  {
    OrderIsSchema(rules, tenant, order);
    forall i | 0 <= i < |order|
      ensures order[i].id in rules && rules[order[i].id] == order[i] && order[i].tenant == tenant && order[i].isActive
    {
      assert order[i] in order;
    }
    forall k | k in rules && rules[k].tenant == tenant && rules[k].isActive
      ensures exists i :: 0 <= i < |order| && order[i] == rules[k]
    {
      assert rules[k] in order;
    }
  }

  /** A discrepancy that no active rule suits, in particular one younger than every rule's hours,
      keeps its row, its events, its notifications and its sends. */
  lemma UnsuitedIsLeftAlone(
    t0: Tables, t1: Tables, rules: map<int, Rule>, tenants: set<int>, orders: map<int, seq<Rule>>,
    now: int, answer: (int, int) -> SendResult, d: int)
    requires PassDone(t0, t1, rules, tenants, orders, now, answer) && SchemaTable(rules) && HoursFit(rules)
    requires d in t0.discs && forall k :: k in rules && rules[k].isActive ==> !Suits(rules[k], t0.discs[d], now)
    ensures ViewOf(t1, d) == ViewOf(t0, d)
  {
    hide Suits, Fires, Matches, Log, OwnNotices, OwnSends, PriorityOrder;
    var v, p, tenant := ViewOf(t0, d), PassOf(now, answer, d), t0.discs[d].tenant;
    if tenant in orders {
      var order := orders[tenant];
      OrderTells(rules, tenant, order);
      forall i | 0 <= i < |order| ensures !Fires(order[i], v, p) && !Matches(order[i], v, p) {
        FiresIffChanges(order[i], v, p);
      }
      IdleWalk(order, v, p);
    }
  }

  /** Which rule changes a discrepancy of an active tenant: none, if none can; otherwise one that
      can, with no lower priority number among those that can, and that one alone. */
  lemma WhoChanges(
    t0: Tables, t1: Tables, rules: map<int, Rule>, tenants: set<int>, orders: map<int, seq<Rule>>,
    now: int, answer: (int, int) -> SendResult, d: int)
    requires PassDone(t0, t1, rules, tenants, orders, now, answer) && SchemaTable(rules) && HoursFit(rules)
    requires d in t0.discs && t0.discs[d].tenant in tenants
    ensures var v, w := ViewOf(t0, d), ViewOf(t1, d);
      if forall k :: k in rules ==> !Changes(rules[k], v, now) then w.row == v.row && w.log == v.log
      else exists k | k in rules && Changes(rules[k], v, now) ::
        && (forall j :: j in rules && Changes(rules[j], v, now) ==> rules[k].priority <= rules[j].priority)
        && ChangedBy(rules[k], v, w, now)
  {
    hide Changes, Fires, Matches, Log, OwnNotices, OwnSends, PriorityOrder, ChangedBy, Fire;
    var v, w, p, tenant := ViewOf(t0, d), ViewOf(t1, d), PassOf(now, answer, d), t0.discs[d].tenant;
    var order := orders[tenant];
    OrderTells(rules, tenant, order);
    forall i | 0 <= i < |order|
      ensures Fires(order[i], v, p) <==> Changes(order[i], v, now)
      ensures Fires(order[i], v, p) ==> ChangedBy(order[i], v, Fire(order[i], v, p), now)
    {
      FiresIffChanges(order[i], v, p);
    }
    forall k | k in rules && Changes(rules[k], v, now) ensures exists i :: 0 <= i < |order| && order[i] == rules[k] {
      OnlyOwnRules(rules[k], v, now);
    }
    var n := FirstFiring(order, v, p);
    if n < |order| {
      FirstFiringDecides(order, n, v, p);
      SameChange(order[n], v, Fire(order[n], v, p), w, now);
      var k := order[n].id;
      forall j | j in rules && Changes(rules[j], v, now) ensures rules[k].priority <= rules[j].priority {
        var i :| 0 <= i < |order| && order[i] == rules[j];
        assert n <= i;
      }
    } else {
      WalkOutcome(order, v, p);
    }
  }

  lemma OnlyOwnRules(r: Rule, v: View, now: int)
    requires Changes(r, v, now)
    ensures r.isActive && r.tenant == v.row.tenant
  {
  }

  lemma SameChange(r: Rule, v: View, u: View, w: View, now: int)
    requires ChangedBy(r, v, u, now) && u.row == w.row && u.log == w.log
    ensures ChangedBy(r, v, w, now)
  {
  }

  /** Who is notified of a discrepancy of an active tenant. Each notification and send the pass adds
      is that of an active notify rule that suits it and had not notified before, with the status
      the hub's answer stands for; and every such rule with a lower priority number than all that
      can change the discrepancy has notified by now. */
  lemma WhoNotifies(
    t0: Tables, t1: Tables, rules: map<int, Rule>, tenants: set<int>, orders: map<int, seq<Rule>>,
    now: int, answer: (int, int) -> SendResult, d: int)
    requires PassDone(t0, t1, rules, tenants, orders, now, answer) && SchemaTable(rules) && HoursFit(rules)
    requires d in t0.discs && t0.discs[d].tenant in tenants
    ensures var v, w := ViewOf(t0, d), ViewOf(t1, d);
      && v.notices <= w.notices && v.sends <= w.sends && |w.notices| - |v.notices| == |w.sends| - |v.sends|
      && (forall i: nat | |v.notices| <= i < |w.notices| ::
            var k := SendFor(v, w, i);
            && k in rules && rules[k].isActive && rules[k].action == Notify && Suits(rules[k], v.row, now)
            && !Noticed(v, k) && w.notices[i] == OwnNotice(k, Logs(answer(k, d)), 1))
      && (forall k | k in rules && rules[k].isActive && rules[k].action == Notify && Suits(rules[k], v.row, now) ::
            (forall j :: j in rules && Changes(rules[j], v, now) ==> rules[k].priority < rules[j].priority) ==> Noticed(w, k))
  {
    hide Changes, Fires, Matches, Log, OwnNotices, OwnSends, PriorityOrder, Suits, Noticed, Walk;
    var v, w, p, tenant := ViewOf(t0, d), ViewOf(t1, d), PassOf(now, answer, d), t0.discs[d].tenant;
    var order := orders[tenant];
    OrderTells(rules, tenant, order);
    WalkNotifies(order, v, p);
    forall i | 0 <= i < |order|
      ensures Fires(order[i], v, p) <==> Changes(order[i], v, now)
      ensures Matches(order[i], v, p) <==> Suits(order[i], v.row, now)
    {
      FiresIffChanges(order[i], v, p);
    }
    forall i: nat | |v.notices| <= i < |w.notices|
      ensures var k := SendFor(v, w, i);
        && k in rules && rules[k].isActive && rules[k].action == Notify && Suits(rules[k], v.row, now)
        && !Noticed(v, k) && w.notices[i] == OwnNotice(k, Logs(answer(k, d)), 1)
    {
      assert Added(order, v, w, i, p);
    }
    forall k | k in rules && rules[k].isActive && rules[k].action == Notify && Suits(rules[k], v.row, now)
      && (forall j :: j in rules && Changes(rules[j], v, now) ==> rules[k].priority < rules[j].priority)
      ensures Noticed(w, k)
    {
      SuitsOwn(rules[k], v.row, now);
      var m :| 0 <= m < |order| && order[m] == rules[k];
      forall j | 0 <= j < m ensures !Fires(order[j], v, p) {
        assert rules[order[j].id] == order[j];
      }
    }
  }

  lemma SuitsOwn(r: Rule, row: Disc, now: int)
    requires Suits(r, row, now)
    ensures r.tenant == row.tenant
  {
  }
}
