/** The database and the notification hub as the services call them. */
module Store {
  import opened Domain
  import opened Ledger
  import opened Machine

  predicate SchemaTable(rules: map<int, Rule>) {
    forall k :: k in rules ==> rules[k].id == k && ValidTriggerStatus(rules[k].triggerStatus)
  }

  /** A result of RuleStore.List: the tenant's active rules, each once, by priority. */
  predicate PriorityOrder(rules: map<int, Rule>, tenant: int, list: seq<Rule>) {
    && (forall r :: r in list ==> r.id in rules && rules[r.id] == r && r.tenant == tenant && r.isActive)
    && ByPriority(list)
    && (forall k :: k in rules && rules[k].tenant == tenant && rules[k].isActive ==> rules[k] in list)
  }

  /** By rising priority, no rule twice. */
  predicate ByPriority(list: seq<Rule>) {
    forall i, j :: 0 <= i < j < |list| ==> list[i].priority <= list[j].priority && list[i].id != list[j].id
  }

  method PlacedByPriority(list: seq<Rule>, r: Rule) returns (placed: seq<Rule>)
    requires ByPriority(list) && forall x :: x in list ==> x.id != r.id
    ensures ByPriority(placed) && forall x :: x in placed <==> x in list || x == r
  {
    var at := 0;
    while at < |list| && list[at].priority <= r.priority
      invariant 0 <= at <= |list|
      invariant forall i :: 0 <= i < at ==> list[i].priority <= r.priority
    {
      at := at + 1;
    }
    placed := list[..at] + [r] + list[at..];
    PlacedSorted(list, r, at);
  }

  lemma PlacedSorted(list: seq<Rule>, r: Rule, at: nat)
    requires ByPriority(list) && at <= |list| && forall x :: x in list ==> x.id != r.id
    requires forall i :: 0 <= i < at ==> list[i].priority <= r.priority
    requires at < |list| ==> r.priority <= list[at].priority
    ensures var placed := list[..at] + [r] + list[at..];
      ByPriority(placed) && forall x :: x in placed <==> x in list || x == r
  {
    var placed := list[..at] + [r] + list[at..];
    forall i, j | 0 <= i < j < |placed| ensures placed[i].priority <= placed[j].priority && placed[i].id != placed[j].id {
      var a, b := if i < at then i else i - 1, if j < at then j else j - 1;
      assert i != at ==> placed[i] == list[a] && list[a] in list;
      assert j != at ==> placed[j] == list[b] && list[b] in list;
    }
    forall x ensures x in placed <==> x in list || x == r {
      assert list == list[..at] + list[at..];
    }
  }

  /** A fresh primary key. */
  method UnusedId(used: set<int>) returns (id: int)
    ensures id !in used
  {
    id := 0;
    var rest := used;
    while rest != {}
      invariant rest <= used && forall d :: d in used && d !in rest ==> d < id
      decreases rest
    {
      var d := AnyOf(rest);
      rest := rest - {d};
      if d >= id {
        id := d + 1;
      }
    }
  }

  /** No call ever fails. */
  ghost predicate NeverFails(fate: nat -> Outcome) {
    forall n :: fate(n) == Done
  }

  /** The row as the listing for a rule selects it, in the rule's own terms: of its tenant, in its
      trigger status, of its severity, and older than its hours. */
  predicate Suits(r: Rule, row: Disc, now: int) {
    && row.tenant == r.tenant && row.status == r.triggerStatus
    && (r.severityMatch == None || r.severityMatch == Some(row.severity))
    && now - row.createdAt > r.triggerAfterHrs * 3_600_000_000_000
  }

  lemma SelectsSuits(r: Rule, row: Disc, now: int)
    requires -2_562_047 <= r.triggerAfterHrs <= 2_562_047
    ensures Selects(r, now, row) <==> Suits(r, row, now)
  {
    AgeTest(r, row.createdAt, now);
  }

  /** The tables, the rules and tenants beside them, and the notification hub. `fate` is what
      becomes of the n-th call; `answer` is what the hub replies to the one event the engine
      sends for a rule and a discrepancy. */
  class Backend {
    var discs: map<int, Disc>
    var events: seq<Event>
    var lastSeq: nat
    var notices: seq<Notice>
    var sends: seq<(int, int)>
    var rules: map<int, Rule>
    var activeTenants: set<int>
    var calls: nat
    const fate: nat -> Outcome
    const answer: (int, int) -> SendResult

    constructor (fate: nat -> Outcome, answer: (int, int) -> SendResult)
      ensures Contents() == EMPTY && rules == map[] && activeTenants == {} && calls == 0
      ensures this.fate == fate && this.answer == answer
    {
      discs, events, lastSeq, notices, sends := map[], [], 0, [], [];
      rules, activeTenants, calls := map[], {}, 0;
      this.fate, this.answer := fate, answer;
    }

    function Contents(): Tables
      reads this
    {
      Tables(discs, events, lastSeq, notices, sends)
    }

    method Outcome() returns (o: Outcome)
      modifies this`calls
      ensures o == fate(old(calls)) && calls == old(calls) + 1
    {
      o := fate(calls);
      calls := calls + 1;
    }

    method UpdateStatus(id: int, s: Status, at: Option<int>) returns (o: Outcome)
      requires id in discs
      modifies this`calls, this`discs
      ensures Contents() == After(o, old(Contents()), SetStatus(old(Contents()), id, s, at))
      ensures o == fate(old(calls)) && calls == old(calls) + 1
    {
      o := Outcome();
      if o != Refused {
        discs := discs[id := discs[id].(status := s, resolvedAt := at)];
      }
    }

    method UpdateSeverity(id: int, name: string) returns (o: Outcome, ok: bool)
      requires id in discs
      modifies this`calls, this`discs
      ensures Contents() == After(o, old(Contents()), SetSeverity(old(Contents()), id, name))
      ensures o == fate(old(calls)) && calls == old(calls) + 1
      ensures ok <==> o == Done && ParseSeverity(name).Some?
    {
      o := Outcome();
      var parsed := ParseSeverity(name);
      if o != Refused && parsed.Some? {
        discs := discs[id := discs[id].(severity := parsed.value)];
      }
      ok := o == Done && parsed.Some?;
    }

    method AppendEvent(id: int, kind: EventKind, payload: Payload) returns (o: Outcome)
      requires id in discs
      modifies this`calls, this`events, this`lastSeq
      ensures Contents() == After(o, old(Contents()), Append(old(Contents()), id, kind, payload))
      ensures o == fate(old(calls)) && calls == old(calls) + 1
    {
      o := Outcome();
      if o != Refused {
        lastSeq := lastSeq + 1;
        events := events + [Event(lastSeq, id, kind, payload)];
      }
    }

    method ExistsForDiscrepancy(id: int, kind: EventKind) returns (o: Outcome, found: bool)
      modifies this`calls
      ensures found <==> HasEvent(Contents(), id, kind)
      ensures o == fate(old(calls)) && calls == old(calls) + 1
    {
      o := Outcome();
      found := exists i :: 0 <= i < |events| && events[i].disc == id && events[i].kind == kind;
    }

    method NotificationExists(rule: int, id: int) returns (o: Outcome, found: bool)
      modifies this`calls
      ensures found <==> HasNotice(Contents(), rule, id)
      ensures o == fate(old(calls)) && calls == old(calls) + 1
    {
      o := Outcome();
      found := exists i :: 0 <= i < |notices| && notices[i].rule == rule && notices[i].disc == id;
    }

    method CreateNotification(rule: int, id: int) returns (o: Outcome, n: nat)
      modifies this`calls, this`notices
      ensures Contents() == After(o, old(Contents()), AddNotice(old(Contents()), rule, id))
      ensures o == fate(old(calls)) && calls == old(calls) + 1
      ensures n == old(|notices|)
    {
      o := Outcome();
      n := |notices|;
      if o != Refused {
        notices := notices + [Notice(rule, id, NotifPending, 0)];
      }
    }

    method SendEvent(rule: int, id: int) returns (r: SendResult)
      modifies this`sends
      ensures Contents() == old(Contents()).(sends := old(sends) + [(rule, id)]) && r == answer(rule, id)
    {
      sends := sends + [(rule, id)];
      r := answer(rule, id);
    }

    method UpdateNotification(n: nat, s: NotifStatus, attempts: nat) returns (o: Outcome)
      modifies this`calls, this`notices
      ensures Contents() == After(o, old(Contents()), SetNotice(old(Contents()), n, s, attempts))
      ensures o == fate(old(calls)) && calls == old(calls) + 1
    {
      o := Outcome();
      if o != Refused && n < |notices| {
        notices := notices[n := notices[n].(status := s, attempts := attempts)];
      }
    }

    /** RuleStore.List with activeOnly: ORDER BY priority, ties in any order. */
    method ListRules(tenant: int) returns (ok: bool, list: seq<Rule>)
      requires SchemaTable(rules)
      modifies this`calls
      ensures PriorityOrder(rules, tenant, list)
      ensures forall i, j :: 0 <= i < j < |list| ==> list[i].priority <= list[j].priority
      ensures forall k :: k in rules ==> (rules[k] in list <==> rules[k].tenant == tenant && rules[k].isActive)
      ensures ok == (fate(old(calls)) == Done) && calls == old(calls) + 1
    {
      var o := Outcome();
      ok := o == Done;
      list := [];
      var rest := set k | k in rules && rules[k].tenant == tenant && rules[k].isActive;
      while rest != {}
        invariant ByPriority(list)
        invariant forall r :: r in list ==> r.id in rules && rules[r.id] == r && r.tenant == tenant && r.isActive && r.id !in rest
        invariant forall k :: k in rest ==> k in rules && rules[k].tenant == tenant && rules[k].isActive
        invariant forall k | k in rules && rules[k].tenant == tenant && rules[k].isActive :: k in rest || rules[k] in list
        invariant calls == old(calls) + 1
        decreases rest
      {
        var k := AnyOf(rest);
        rest := rest - {k};
        list := PlacedByPriority(list, rules[k]);
      }
    }

    /** getActiveTenantIDs. */
    method GetActiveTenantIds() returns (ok: bool, ids: seq<int>)
      modifies this`calls
      ensures (forall i, j :: 0 <= i < j < |ids| ==> ids[i] != ids[j])
      ensures forall t :: t in activeTenants <==> t in ids
      ensures ok == (fate(old(calls)) == Done) && calls == old(calls) + 1
    {
      var o := Outcome();
      ok := o == Done;
      ids := [];
      var rest := activeTenants;
      while rest != {}
        invariant rest <= activeTenants && (forall t :: t in activeTenants <==> t in rest || t in ids)
        invariant forall t :: t in ids ==> t !in rest
        invariant forall i, j :: 0 <= i < j < |ids| ==> ids[i] != ids[j]
        invariant calls == old(calls) + 1
        decreases rest
      {
        var t := AnyOf(rest);
        ids, rest := ids + [t], rest - {t};
      }
    }

    /** ListForEscalation: no ORDER BY, so any order will do. */
    method ListForEscalation(r: Rule, now: int) returns (ok: bool, list: seq<Snapshot>)
      modifies this`calls
      ensures Candidates(Contents(), r, now, list)
      ensures -2_562_047 <= r.triggerAfterHrs <= 2_562_047 ==>
        && (forall i | 0 <= i < |list| ::
              list[i].id in discs && list[i].row == discs[list[i].id] && Suits(r, list[i].row, now))
        && (forall d | d in discs && Suits(r, discs[d], now) :: exists i :: 0 <= i < |list| && list[i].id == d)
      ensures ok == (fate(old(calls)) == Done) && calls == old(calls) + 1
    {
      var o := Outcome();
      ok := o == Done;
      list := [];
      if -2_562_047 <= r.triggerAfterHrs <= 2_562_047 {
        forall row: Disc ensures Selects(r, now, row) <==> Suits(r, row, now) {
          SelectsSuits(r, row, now);
        }
      }
      var rest := set d | d in discs && Selects(r, now, discs[d]);
      while rest != {}
        invariant forall i | 0 <= i < |list| ::
          list[i].id in discs && list[i].row == discs[list[i].id] && Selects(r, now, list[i].row) && list[i].id !in rest
        invariant forall i, j :: 0 <= i < j < |list| ==> list[i].id != list[j].id
        invariant forall d :: d in rest ==> d in discs && Selects(r, now, discs[d])
        invariant forall d | d in discs && Selects(r, now, discs[d]) :: d in rest || exists i :: 0 <= i < |list| && list[i].id == d
        invariant calls == old(calls) + 1
        decreases rest
      {
        var d := AnyOf(rest);
        ghost var before := list;
        list := list + [Snapshot(d, discs[d])];
        rest := rest - {d};
        assert list[|list| - 1].id == d;
        assert forall i :: 0 <= i < |before| ==> list[i] == before[i];
      }
    }

    /** GetByExternalID: any error, not only "no rows", reads as not found. */
    method GetByExternalId(tenant: int, externalId: string) returns (o: Outcome, found: bool)
      modifies this`calls
      ensures found <==> o == Done && ExternalTaken(Contents(), tenant, externalId)
      ensures o == fate(old(calls)) && calls == old(calls) + 1
    {
      o := Outcome();
      found := o == Done && exists d :: d in discs && discs[d].tenant == tenant && discs[d].externalId == externalId;
    }

    method TenantActive(tenant: int) returns (o: Outcome, active: bool)
      modifies this`calls
      ensures active <==> tenant in activeTenants
      ensures o == fate(old(calls)) && calls == old(calls) + 1
    {
      o := Outcome();
      active := tenant in activeTenants;
    }

    /** Create: the database picks an unused id, and refuses a used (tenant, external_id) and a
        message whose texts its columns do not take. */
    method Create(e: Envelope, now: int) returns (o: Outcome, id: int, ok: bool)
      requires e.tenant.Some?
      modifies this`calls, this`discs
      ensures id !in old(discs)
      ensures Contents() == if Storable(e) then After(o, old(Contents()), Insert(old(Contents()), id, NewRow(e, now)))
                            else old(Contents())
      ensures o == fate(old(calls)) && calls == old(calls) + 1
      ensures ok <==> o == Done && Storable(e) && !ExternalTaken(old(Contents()), e.tenant.value, e.externalId)
    {
      o := Outcome();
      id := UnusedId(discs.Keys);
      var severity := ParseSeverity(e.severity);
      var kinds := {"missing", "mismatch", "duplicate", "timing"};
      var fits := severity.Some? && e.discrepancyType in kinds && |e.externalId| <= 255 && |e.title| <= 500 && e.restFits;
      var taken := exists d :: d in discs && discs[d].tenant == e.tenant.value && discs[d].externalId == e.externalId;
      if o != Refused && fits && !taken {
        discs := discs[id := Disc(e.tenant.value, e.externalId, now, Open, severity.value, None)];
      }
      ok := o == Done && fits && !taken;
    }

    /** GetLatestSequence: MAX(sequence_num) over the tenant's events of this discrepancy. An
        event belongs to the tenant of its discrepancy. */
    method GetLatestSequence(tenant: int, id: int) returns (o: Outcome, latest: nat)
      modifies this`calls
      ensures latest == CurrentSequence(Contents(), tenant, id)
      ensures o == fate(old(calls)) && calls == old(calls) + 1
    {
      o := Outcome();
      latest := 0;
      assert events[..|events|] == events;
      if id !in discs || discs[id].tenant != tenant {
        return;
      }
      for i := 0 to |events|
        invariant latest == Latest(events[..i], id)
      {
        assert events[..i + 1][..i] == events[..i];
        if events[i].disc == id && events[i].seqNum > latest {
          latest := events[i].seqNum;
        }
      }
    }
  }
}
