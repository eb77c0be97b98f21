/**
 The meaning of an escalation pass, one discrepancy at a time: a discrepancy meets the rules in
 priority order, every matching notify rule is logged once, and the first rule that can change
 its status does, and ends the walk.
*/
module Escalation {
  import opened Domain
  import opened Ledger
  import opened Machine

  /** A notification as the log shows it for one discrepancy. */
  datatype OwnNotice = OwnNotice(rule: int, status: NotifStatus, attempts: nat)

  /** Everything the tables hold about one discrepancy. Global sequence numbers are left out. */
  datatype View = View(row: Disc, log: seq<Entry>, notices: seq<OwnNotice>, sends: seq<int>)

  function OwnNotices(notices: seq<Notice>, d: int): seq<OwnNotice> {
    if notices == [] then []
    else
      var n := notices[|notices| - 1];
      OwnNotices(notices[..|notices| - 1], d)
      + (if n.disc == d then [OwnNotice(n.rule, n.status, n.attempts)] else [])
  }

  function OwnSends(sends: seq<(int, int)>, d: int): seq<int> {
    if sends == [] then []
    else
      var s := sends[|sends| - 1];
      OwnSends(sends[..|sends| - 1], d) + (if s.1 == d then [s.0] else [])
  }

  function ViewOf(t: Tables, d: int): View
    requires d in t.discs
  {
    View(t.discs[d], Log(t.events, d), OwnNotices(t.notices, d), OwnSends(t.sends, d))
  }

  predicate Noticed(v: View, rule: int) {
    exists i :: 0 <= i < |v.notices| && v.notices[i].rule == rule
  }

  predicate HasLogged(v: View, kind: EventKind) {
    exists i :: 0 <= i < |v.log| && v.log[i].kind == kind
  }

  // ---------------------------------------------------------------- one rule

  /** The circumstances of a pass: its clock, and the hub's answer to each rule about one discrepancy. */
  datatype Pass = Pass(now: int, answer: int -> SendResult)

  predicate Matches(r: Rule, v: View, p: Pass) {
    Selects(r, p.now, v.row)
  }

  /** The rule changes the discrepancy's status. */
  predicate Fires(r: Rule, v: View, p: Pass) {
    && Matches(r, v, p) && r.action != Notify
    && ValidTransition(v.row.status, Target(r.action))
    && !HasLogged(v, EffectKind(r.action))
    && (r.action == Escalate && r.newSeverity.Some? ==> ParseSeverity(r.newSeverity.value).Some?)
  }

  function Fire(r: Rule, v: View, p: Pass): View
    requires Fires(r, v, p)
  {
    var severity := if r.action == Escalate && r.newSeverity.Some?
                    then ParseSeverity(r.newSeverity.value).value else v.row.severity;
    v.(row := v.row.(status := Target(r.action), resolvedAt := ClosingTime(r.action, p.now), severity := severity),
       log := v.log + [Entry(EffectKind(r.action), ByRule(r.id))])
  }

  function NotifyOnce(r: Rule, v: View, p: Pass): View {
    if Noticed(v, r.id) then v
    else v.(notices := v.notices + [OwnNotice(r.id, AfterFirstSend(p.answer(r.id)), 1)], sends := v.sends + [r.id])
  }

  /** What evaluating one rule does to one discrepancy. */
  function RuleView(r: Rule, v: View, p: Pass): View {
    if !Matches(r, v, p) then v
    else if r.action == Notify then NotifyOnce(r, v, p)
    else if Fires(r, v, p) then Fire(r, v, p)
    else v
  }

  // ---------------------------------------------------------------- the walk

  /** A discrepancy's walk through its tenant's rules. It stops at the first rule that fires. */
  function Walk(rules: seq<Rule>, v: View, p: Pass): View {
    if rules == [] then v
    else if Fires(rules[0], v, p) then Fire(rules[0], v, p)
    else if Matches(rules[0], v, p) && rules[0].action == Notify then Walk(rules[1..], NotifyOnce(rules[0], v, p), p)
    else Walk(rules[1..], v, p)
  }

  predicate SchemaRules(rules: seq<Rule>) {
    forall i :: 0 <= i < |rules| ==> ValidTriggerStatus(rules[i].triggerStatus)
  }

  /** A discrepancy a rule has fired on matches no rule any more. */
  lemma FiredIsDone(r: Rule, v: View, p: Pass, s: Rule, q: Pass)
    requires Fires(r, v, p) && ValidTriggerStatus(s.triggerStatus)
    ensures !Matches(s, Fire(r, v, p), q)
  {
  }

  /** The walk is the rules taken one by one, each evaluated over the whole table. */
  lemma {:induction false} WalkSnoc(rules: seq<Rule>, r: Rule, v: View, p: Pass)
    requires SchemaRules(rules) && ValidTriggerStatus(r.triggerStatus)
    ensures Walk(rules + [r], v, p) == RuleView(r, Walk(rules, v, p), p)
  {
    if rules == [] {
      assert rules + [r] == [r];
      assert [r][1..] == [];
    } else {
      assert (rules + [r])[0] == rules[0] && (rules + [r])[1..] == rules[1..] + [r];
      if Fires(rules[0], v, p) {
        FiredIsDone(rules[0], v, p, r, p);
      } else if Matches(rules[0], v, p) && rules[0].action == Notify {
        WalkSnoc(rules[1..], r, NotifyOnce(rules[0], v, p), p);
      } else {
        WalkSnoc(rules[1..], r, v, p);
      }
    }
  }

  /** Rules of other tenants are not met. */
  lemma {:induction false} ForeignWalk(rules: seq<Rule>, v: View, p: Pass)
    requires forall i :: 0 <= i < |rules| ==> rules[i].tenant != v.row.tenant
    ensures Walk(rules, v, p) == v
  {
    if rules != [] {
      ForeignWalk(rules[1..], v, p);
    }
  }

  // ---------------------------------------------------------------- order and repetition

  predicate SomeFires(rules: seq<Rule>, v: View, p: Pass) {
    exists i :: 0 <= i < |rules| && Fires(rules[i], v, p)
  }

  /** Whether a rule fires does not depend on what was notified before. */
  lemma NotifyIsNeutral(r: Rule, v: View, p: Pass, s: Rule)
    ensures Fires(s, NotifyOnce(r, v, p), p) <==> Fires(s, v, p)
    ensures Matches(s, NotifyOnce(r, v, p), p) <==> Matches(s, v, p)
  {
  }

  lemma NotifyNotices(r: Rule, v: View, p: Pass)
    ensures Noticed(NotifyOnce(r, v, p), r.id)
  {
    var u := NotifyOnce(r, v, p);
    assert Noticed(v, r.id) || u.notices[|v.notices|].rule == r.id;
  }

  lemma StaysNoticed(v: View, w: View, rule: int)
    requires Noticed(v, rule) && v.notices <= w.notices
    ensures Noticed(w, rule)
  {
    var i :| 0 <= i < |v.notices| && v.notices[i].rule == rule;
    assert w.notices[i].rule == rule;
  }

  /** The outcome of a walk: the status moves exactly when some rule fires, to the one status
      the present status allows; otherwise row and events stay, and every matching notify rule
      has its notification. */
  lemma {:induction false} WalkOutcome(rules: seq<Rule>, v: View, p: Pass)
    requires SchemaRules(rules)
    ensures var w := Walk(rules, v, p);
      && (SomeFires(rules, v, p) ==> w.row.status == (if v.row.status == Open then AutoClosed else Escalated))
      && (!SomeFires(rules, v, p) ==>
            && w.row == v.row && w.log == v.log
            && forall i :: 0 <= i < |rules| && Matches(rules[i], v, p) && rules[i].action == Notify ==> Noticed(w, rules[i].id))
      && v.notices <= w.notices && v.sends <= w.sends && v.log <= w.log
  {
    if rules != [] {
      var r := rules[0];
      if Fires(r, v, p) {
      } else {
        var u := if Matches(r, v, p) && r.action == Notify then NotifyOnce(r, v, p) else v;
        WalkOutcome(rules[1..], u, p);
        assert forall i :: 0 < i < |rules| ==> rules[1..][i - 1] == rules[i];
        forall i | 0 <= i < |rules| ensures Fires(rules[i], u, p) <==> Fires(rules[i], v, p) {
          NotifyIsNeutral(r, v, p, rules[i]);
        }
        assert SomeFires(rules[1..], u, p) <==> SomeFires(rules, v, p);
        if Matches(r, v, p) && r.action == Notify {
          NotifyNotices(r, v, p);
          StaysNoticed(u, Walk(rules[1..], u, p), r.id);
        }
      }
    }
  }

  /** The first rule that fires decides row and event alone; the rules after it have no effect. */
  lemma {:induction false} FirstFiringDecides(rules: seq<Rule>, k: nat, v: View, p: Pass)
    requires k < |rules| && Fires(rules[k], v, p)
    requires forall i :: 0 <= i < k ==> !Fires(rules[i], v, p)
    ensures Walk(rules, v, p).row == Fire(rules[k], v, p).row && Walk(rules, v, p).log == Fire(rules[k], v, p).log
    ensures Walk(rules, v, p) == Walk(rules[..k + 1], v, p)
  {
    if k > 0 {
      var r := rules[0];
      var u := if Matches(r, v, p) && r.action == Notify then NotifyOnce(r, v, p) else v;
      forall i | 0 <= i < |rules| ensures Fires(rules[i], u, p) <==> Fires(rules[i], v, p) {
        NotifyIsNeutral(r, v, p, rules[i]);
      }
      FirstFiringDecides(rules[1..], k - 1, u, p);
      assert rules[1..][..k] == rules[..k + 1][1..];
    }
  }

  /** Two rule lists that are the same up to order and repetition. */
  predicate SameRules(a: seq<Rule>, b: seq<Rule>) {
    (forall i :: 0 <= i < |a| ==> a[i] in b) && (forall i :: 0 <= i < |b| ==> b[i] in a)
  }

  /** Confluence: the status a pass leaves does not depend on the order of the rules. */
  lemma StatusIgnoresOrder(a: seq<Rule>, b: seq<Rule>, v: View, p: Pass)
    requires SchemaRules(a) && SchemaRules(b) && SameRules(a, b)
    ensures Walk(a, v, p).row.status == Walk(b, v, p).row.status
  {
    WalkOutcome(a, v, p);
    WalkOutcome(b, v, p);
  }

  /** A walk with nothing left to do. */
  lemma {:induction false} IdleWalk(rules: seq<Rule>, v: View, p: Pass)
    requires forall i :: 0 <= i < |rules| ==> !Fires(rules[i], v, p)
    requires forall i :: 0 <= i < |rules| && Matches(rules[i], v, p) && rules[i].action == Notify ==> Noticed(v, rules[i].id)
    ensures Walk(rules, v, p) == v
  {
    if rules != [] {
      IdleWalk(rules[1..], v, p);
    }
  }

  /** Idempotence: a second pass at the same clock, under any order of the same rules and
      whatever the hub would answer, changes nothing and sends nothing. */
  lemma SecondPassIsIdle(a: seq<Rule>, b: seq<Rule>, v: View, p: Pass, q: Pass)
    requires SchemaRules(a) && SchemaRules(b) && SameRules(a, b) && q.now == p.now
    ensures Walk(b, Walk(a, v, p), q) == Walk(a, v, p)
  {
    WalkOutcome(a, v, p);
    var w := Walk(a, v, p);
    if SomeFires(a, v, p) {
      assert Closed(w.row.status) || w.row.status == Escalated;
    }
    forall i | 0 <= i < |b| ensures !Fires(b[i], w, q)
      && (Matches(b[i], w, q) && b[i].action == Notify ==> Noticed(w, b[i].id))
    {
      assert b[i] in a;
      var j :| 0 <= j < |a| && a[j] == b[i];
      if !SomeFires(a, v, p) {
        assert !Fires(a[j], v, p);
      }
    }
    IdleWalk(b, w, q);
  }
}
