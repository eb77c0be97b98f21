/** A partial rule update compiled to SET clauses, and what the database makes of them. */
module RuleUpdate {
  import opened Domain

  /** A row of escalation_rules. `config` is the encoded action_config. */
  datatype RuleRow = RuleRow(
    tenant: int, name: string, severityMatch: string, triggerAfterHrs: int, triggerStatus: string,
    action: string, config: string, isActive: bool, priority: int, createdAt: int, updatedAt: int)

  type Table = map<int, RuleRow>

  /** A configuration that does or does not encode as JSON. */
  datatype Config = Encodable(bytes: string) | Unencodable

  /** RuleUpdate: the fields to change. */
  datatype Update = Update(
    name: Option<string>, severityMatch: Option<string>, triggerAfterHrs: Option<int>, triggerStatus: Option<string>,
    action: Option<string>, config: Option<Config>, isActive: Option<bool>, priority: Option<int>)

  // ---------------------------------------------------------------- compiled form

  datatype Column = Name | SeverityMatch | TriggerAfterHrs | TriggerStatus | ActionCol | ActionConfig | IsActive | Priority

  datatype Value = Text(text: string) | Number(n: int) | Flag(on: bool) | Key(id: int)

  /** "column = $arg". */
  datatype Clause = Clause(column: Column, arg: nat)

  predicate Fits(c: Column, v: Value) {
    match c
    case TriggerAfterHrs => v.Number?
    case Priority => v.Number?
    case IsActive => v.Flag?
    case _ => v.Text?
  }

  function Put(r: RuleRow, c: Column, v: Value): RuleRow
    requires Fits(c, v)
  {
    match c
    case Name => r.(name := v.text)
    case SeverityMatch => r.(severityMatch := v.text)
    case TriggerAfterHrs => r.(triggerAfterHrs := v.n)
    case TriggerStatus => r.(triggerStatus := v.text)
    case ActionCol => r.(action := v.text)
    case ActionConfig => r.(config := v.text)
    case IsActive => r.(isActive := v.on)
    case Priority => r.(priority := v.n)
  }

  function Cell(r: RuleRow, c: Column): Value {
    match c
    case Name => Text(r.name)
    case SeverityMatch => Text(r.severityMatch)
    case TriggerAfterHrs => Number(r.triggerAfterHrs)
    case TriggerStatus => Text(r.triggerStatus)
    case ActionCol => Text(r.action)
    case ActionConfig => Text(r.config)
    case IsActive => Flag(r.isActive)
    case Priority => Number(r.priority)
  }

  /** Placeholder k stands in clause k, for argument k. */
  ghost predicate Numbered(clauses: seq<Clause>, args: seq<Value>) {
    |clauses| == |args| && forall i :: 0 <= i < |clauses| ==> clauses[i].arg == i + 1
  }

  /** What the database takes: every argument fits its column, and no column is assigned twice. */
  ghost predicate Assignable(clauses: seq<Clause>, args: seq<Value>) {
    && Numbered(clauses, args)
    && (forall i :: 0 <= i < |clauses| ==> Fits(clauses[i].column, args[i]))
    && (forall i, j :: 0 <= i < j < |clauses| ==> clauses[i].column != clauses[j].column)
  }

  /** The row after these assignments, made from left to right. */
  function Assigned(r: RuleRow, clauses: seq<Clause>, args: seq<Value>): RuleRow {
    if clauses == [] then r
    else
      var c := clauses[|clauses| - 1];
      var before := Assigned(r, clauses[..|clauses| - 1], args);
      if 1 <= c.arg <= |args| && Fits(c.column, args[c.arg - 1]) then Put(before, c.column, args[c.arg - 1]) else before
  }

  /** The order of assignments does not matter: an assigned column holds its argument, any other
      column what it held before. */
  lemma {:induction false} AssignedCells(r: RuleRow, clauses: seq<Clause>, args: seq<Value>, c: Column)
    requires |clauses| <= |args|
    requires forall i :: 0 <= i < |clauses| ==> clauses[i].arg == i + 1 && Fits(clauses[i].column, args[i])
    requires forall i, j :: 0 <= i < j < |clauses| ==> clauses[i].column != clauses[j].column
    ensures forall i :: 0 <= i < |clauses| && clauses[i].column == c ==> Cell(Assigned(r, clauses, args), c) == args[i]
    ensures (forall i :: 0 <= i < |clauses| ==> clauses[i].column != c) ==> Cell(Assigned(r, clauses, args), c) == Cell(r, c)
  {
    if clauses != [] {
      AssignedCells(r, clauses[..|clauses| - 1], args, c);
    }
  }

  lemma {:induction false} MoreArgs(r: RuleRow, clauses: seq<Clause>, args: seq<Value>, v: Value)
    requires forall i :: 0 <= i < |clauses| ==> clauses[i].arg <= |args|
    ensures Assigned(r, clauses, args + [v]) == Assigned(r, clauses, args)
  {
    if clauses != [] {
      MoreArgs(r, clauses[..|clauses| - 1], args, v);
    }
  }

  // ---------------------------------------------------------------- the builder

  class SetBuilder {
    var clauses: seq<Clause>
    var args: seq<Value>
    var idx: nat

    constructor ()
      ensures Valid() && clauses == [] && forall r :: Assigned(r, clauses, args) == r
    {
      clauses, args, idx := [], [], 1;
    }

    ghost predicate Valid()
      reads this
    {
      Numbered(clauses, args) && idx == |args| + 1
    }

    /** One more assignment, made after those so far. */
    method Add(col: Column, val: Value)
      requires Valid()
      modifies this
      ensures Valid() && clauses == old(clauses) + [Clause(col, old(idx))]
      ensures args == old(args) + [val]
      ensures Fits(col, val) ==>
        forall r :: Assigned(r, clauses, args) == Put(Assigned(r, old(clauses), old(args)), col, val)
      ensures Assignable(old(clauses), old(args)) && Fits(col, val) && (forall c :: c in old(clauses) ==> c.column != col)
        ==> Assignable(clauses, args)
    {
      clauses := clauses + [Clause(col, idx)];
      args := args + [val];
      idx := idx + 1;
      forall r | Fits(col, val) ensures Assigned(r, clauses, args) == Put(Assigned(r, old(clauses), old(args)), col, val) {
        assert clauses[..|clauses| - 1] == old(clauses);
        MoreArgs(r, old(clauses), old(args), val);
      }
    }
  }
  // ---------------------------------------------------------------- direct form

  function OrElse<T>(o: Option<T>, default: T): T {
    if o.Some? then o.value else default
  }

  /** The row with the update's fields in place of its own. */
  function Replaced(r: RuleRow, u: Update): RuleRow {
    r.(name := OrElse(u.name, r.name),
       severityMatch := OrElse(u.severityMatch, r.severityMatch),
       triggerAfterHrs := OrElse(u.triggerAfterHrs, r.triggerAfterHrs),
       triggerStatus := OrElse(u.triggerStatus, r.triggerStatus),
       action := OrElse(u.action, r.action),
       config := if u.config.Some? && u.config.value.Encodable? then u.config.value.bytes else r.config,
       isActive := OrElse(u.isActive, r.isActive),
       priority := OrElse(u.priority, r.priority))
  }

  const NOTHING := Update(None, None, None, None, None, None, None, None)

  /** What the update has for a column. */
  function FieldOf(u: Update, c: Column): Option<Value> {
    match c
    case Name => if u.name.Some? then Some(Text(u.name.value)) else None
    case SeverityMatch => if u.severityMatch.Some? then Some(Text(u.severityMatch.value)) else None
    case TriggerAfterHrs => if u.triggerAfterHrs.Some? then Some(Number(u.triggerAfterHrs.value)) else None
    case TriggerStatus => if u.triggerStatus.Some? then Some(Text(u.triggerStatus.value)) else None
    case ActionCol => if u.action.Some? then Some(Text(u.action.value)) else None
    case ActionConfig =>
      if u.config.Some? && u.config.value.Encodable? then Some(Text(u.config.value.bytes)) else None
    case IsActive => if u.isActive.Some? then Some(Flag(u.isActive.value)) else None
    case Priority => if u.priority.Some? then Some(Number(u.priority.value)) else None
  }

  /** The place of a column in the order the builder visits them. */
  function Place(c: Column): nat {
    match c
    case Name => 1
    case SeverityMatch => 2
    case TriggerAfterHrs => 3
    case TriggerStatus => 4
    case ActionCol => 5
    case ActionConfig => 6
    case IsActive => 7
    case Priority => 8
  }

  /** The part of an update the builder has visited after `n` columns. */
  function Upto(u: Update, n: nat): Update {
    Update(if n < 1 then None else u.name, if n < 2 then None else u.severityMatch,
           if n < 3 then None else u.triggerAfterHrs, if n < 4 then None else u.triggerStatus,
           if n < 5 then None else u.action, if n < 6 then None else u.config,
           if n < 7 then None else u.isActive, if n < 8 then None else u.priority)
  }

  lemma OneMoreField(u: Update, c: Column, r: RuleRow)
    requires u.config != Some(Unencodable)
    ensures Replaced(r, Upto(u, Place(c)))
         == if FieldOf(u, c).Some? then Put(Replaced(r, Upto(u, Place(c) - 1)), c, FieldOf(u, c).value)
            else Replaced(r, Upto(u, Place(c) - 1))
  {
  }

  lemma NothingMore(u: Update, c: Column)
    requires u.config != Some(Unencodable)
    ensures Upto(u, Place(c)) == NOTHING <==> Upto(u, Place(c) - 1) == NOTHING && FieldOf(u, c) == None
  {
  }

  /** The builder has visited `n` columns. */
  ghost predicate Visited(b: SetBuilder, u: Update, n: nat)
    reads b
  {
    && b.Valid() && Assignable(b.clauses, b.args) && u.config != Some(Unencodable)
    && (b.clauses == [] <==> Upto(u, n) == NOTHING)
    && (forall r :: Assigned(r, b.clauses, b.args) == Replaced(r, Upto(u, n)))
    && (forall c :: c in b.clauses ==> Place(c.column) <= n)
  }

  /** One `if` of the builder. */
  method AddIf(b: SetBuilder, present: bool, col: Column, val: Value, ghost u: Update)
    requires Visited(b, u, Place(col) - 1)
    requires FieldOf(u, col) == if present then Some(val) else None
    modifies b
    ensures Visited(b, u, Place(col))
  {
    hide Assigned, Replaced, Assignable, Upto;
    NothingMore(u, col);
    forall r ensures Replaced(r, Upto(u, Place(col)))
                  == if present then Put(Replaced(r, Upto(u, Place(col) - 1)), col, val) else Replaced(r, Upto(u, Place(col) - 1))
    {
      OneMoreField(u, col, r);
    }
    if present {
      b.Add(col, val);
    }
  }

  /** The compiled assignments replace exactly the fields the update names, whatever the row;
      there are none exactly for the update that names none. */
  method BuildRuleUpdateSets(u: Update) returns (clauses: seq<Clause>, args: seq<Value>, idx: nat, encoded: bool)
    ensures encoded <==> u.config != Some(Unencodable)
    ensures encoded ==> Assignable(clauses, args) && idx == |args| + 1 && (clauses == [] <==> u == NOTHING)
    ensures encoded ==> forall r :: Assigned(r, clauses, args) == Replaced(r, u)
  {
    hide Assigned, Assignable, Replaced, Put, Visited, Upto;
    var b := new SetBuilder();
    // An unencodable configuration is met midway, and what was built is dropped.
    ghost var v := if u.config == Some(Unencodable) then u.(config := None) else u;
    NoneVisited(b, v);
    AddIf(b, u.name.Some?, Name, Text(OrElse(u.name, "")), v);
    AddIf(b, u.severityMatch.Some?, SeverityMatch, Text(OrElse(u.severityMatch, "")), v);
    AddIf(b, u.triggerAfterHrs.Some?, TriggerAfterHrs, Number(OrElse(u.triggerAfterHrs, 0)), v);
    AddIf(b, u.triggerStatus.Some?, TriggerStatus, Text(OrElse(u.triggerStatus, "")), v);
    AddIf(b, u.action.Some?, ActionCol, Text(OrElse(u.action, "")), v);
    if u.config == Some(Unencodable) {
      return [], [], 0, false;
    }
    AddIf(b, u.config.Some?, ActionConfig, Text(if u.config.Some? then u.config.value.bytes else ""), v);
    AddIf(b, u.isActive.Some?, IsActive, Flag(OrElse(u.isActive, false)), v);
    AddIf(b, u.priority.Some?, Priority, Number(OrElse(u.priority, 0)), v);
    AllVisited(b, u);
    return b.clauses, b.args, b.idx, true;
  }

  lemma NoneVisited(b: SetBuilder, u: Update)
    requires b.Valid() && b.clauses == [] && u.config != Some(Unencodable)
    requires forall r :: Assigned(r, b.clauses, b.args) == r
    ensures Visited(b, u, 0)
  {
  }

  lemma AllVisited(b: SetBuilder, u: Update)
    requires Visited(b, u, 8)
    ensures Assignable(b.clauses, b.args) && b.idx == |b.args| + 1 && (b.clauses == [] <==> u == NOTHING)
    ensures forall r :: Assigned(r, b.clauses, b.args) == Replaced(r, u)
  {
  }

  // ---------------------------------------------------------------- the store call

  predicate Int32(n: int) {
    -0x8000_0000 <= n < 0x8000_0000
  }

  /** The column types and CHECK constraints of escalation_rules. */
  predicate SchemaOk(r: RuleRow) {
    && |r.name| <= 255 && Int32(r.triggerAfterHrs) && Int32(r.priority)
    && r.severityMatch in {"low", "medium", "high", "critical", "*"}
    && r.triggerStatus in {"open", "acknowledged", "investigating"}
    && r.action in {"notify", "escalate", "auto_close"}
  }

  /** Rows meet the constraints, and no tenant has two rules of one name. */
  ghost predicate TableOk(t: Table) {
    && (forall k :: k in t ==> SchemaOk(t[k]))
    && (forall j, k | j in t && k in t :: t[j].tenant == t[k].tenant && t[j].name == t[k].name ==> j == k)
  }

  datatype Reply = Found(row: RuleRow) | NotFound | RefusedBySchema | NotEncodable

  predicate Owned(t: Table, tenant: int, id: int) {
    id in t && t[id].tenant == tenant
  }

  /** UPDATE escalation_rules SET clauses, updated_at = NOW() WHERE tenant_id = $next AND
      id = $(next + 1) RETURNING: all rows the WHERE clause selects. */
  method Execute(t: Table, clauses: seq<Clause>, args: seq<Value>, next: nat, now: int) returns (t': Table, reply: Reply)
    requires 1 <= next < |args|
    ensures forall tenant, id :: args[next - 1] == Key(tenant) && args[next] == Key(id) ==>
      if !Owned(t, tenant, id) then reply == NotFound && t' == t
      else
        var row := Assigned(t[id], clauses, args).(updatedAt := now);
        if SchemaOk(row) && (forall k :: k in t && k != id && t[k].tenant == row.tenant ==> t[k].name != row.name)
        then reply == Found(row) && t' == t[id := row]
        else reply == RefusedBySchema && t' == t
  {
    t' := t;
    var hit := set k | k in t && args[next - 1] == Key(t[k].tenant) && args[next] == Key(k);
    assert forall tenant, id :: args[next - 1] == Key(tenant) && args[next] == Key(id) && Owned(t, tenant, id) ==> id in hit;
    if hit == {} {
      return t, NotFound;
    }
    var id := AnyOf(hit);
    var row := Assigned(t[id], clauses, args).(updatedAt := now);
    if !SchemaOk(row) || exists k :: k in t && k != id && t[k].tenant == row.tenant && t[k].name == row.name {
      return t, RefusedBySchema;
    }
    t', reply := t[id := row], Found(row);
  }

  method GetByID(t: Table, tenant: int, id: int) returns (reply: Reply)
    ensures reply == if Owned(t, tenant, id) then Found(t[id]) else NotFound
  {
    reply := if id in t && t[id].tenant == tenant then Found(t[id]) else NotFound;
  }

  /** What an update may do: change the fields it names, and the time of change, in the row of
      that tenant and id; or, for whatever reason it fails, nothing. Naming no field only reads. */
  ghost predicate UpdatedAs(t: Table, t': Table, tenant: int, id: int, u: Update, now: int, reply: Reply) {
    if u.config == Some(Unencodable) then t' == t && reply == NotEncodable
    else if !Owned(t, tenant, id) then t' == t && reply == NotFound
    else if u == NOTHING then t' == t && reply == Found(t[id])
    else
      var row := Replaced(t[id], u).(updatedAt := now);
      if SchemaOk(row) && (forall k :: k in t && k != id && t[k].tenant == tenant ==> t[k].name != row.name)
      then t' == t[id := row] && reply == Found(row)
      else t' == t && reply == RefusedBySchema
  }

  /** What the columns take, in the domain's terms: a severity or the wildcard, a status an engine
      rule may start from, and one of the three actions. */
  ghost predicate Acceptable(r: RuleRow) {
    && |r.name| <= 255
    && (r.severityMatch == "*" || exists s :: r.severityMatch == SeverityName(s))
    && (exists s :: ValidTriggerStatus(s) && r.triggerStatus == StatusName(s))
    && (r.action == "notify" || r.action == "escalate" || r.action == "auto_close")
    && -2_147_483_648 <= r.triggerAfterHrs <= 2_147_483_647 && -2_147_483_648 <= r.priority <= 2_147_483_647
  }

  lemma SchemaAccepts(r: RuleRow)
    ensures SchemaOk(r) <==> Acceptable(r)
  {
    assert SeverityName(Low) == "low" && SeverityName(Medium) == "medium";
    assert SeverityName(High) == "high" && SeverityName(Critical) == "critical";
    assert StatusName(Open) == "open" && StatusName(Acknowledged) == "acknowledged" && StatusName(Investigating) == "investigating";
  }

  /** `r'` has the fields `u` names from `u`, and the others from `r`. */
  predicate TakesFrom(r': RuleRow, r: RuleRow, u: Update) {
    && r'.tenant == r.tenant && r'.createdAt == r.createdAt
    && r'.name == (if u.name.Some? then u.name.value else r.name)
    && r'.severityMatch == (if u.severityMatch.Some? then u.severityMatch.value else r.severityMatch)
    && r'.triggerAfterHrs == (if u.triggerAfterHrs.Some? then u.triggerAfterHrs.value else r.triggerAfterHrs)
    && r'.triggerStatus == (if u.triggerStatus.Some? then u.triggerStatus.value else r.triggerStatus)
    && r'.action == (if u.action.Some? then u.action.value else r.action)
    && (u.config == Some(Encodable(r'.config)) || (u.config == None && r'.config == r.config))
    && r'.isActive == (if u.isActive.Some? then u.isActive.value else r.isActive)
    && r'.priority == (if u.priority.Some? then u.priority.value else r.priority)
  }

  /** No field is named. */
  predicate NamesNone(u: Update) {
    && u.name == None && u.severityMatch == None && u.triggerAfterHrs == None && u.triggerStatus == None
    && u.action == None && u.config == None && u.isActive == None && u.priority == None
  }

  predicate NameIsFree(t: Table, tenant: int, id: int, name: string) {
    forall k :: k in t && k != id && t[k].tenant == tenant ==> t[k].name != name
  }

  lemma UpdateReads(t: Table, tenant: int, id: int, u: Update, now: int)
    ensures NamesNone(u) <==> u == NOTHING
    ensures id in t && u.config != Some(Unencodable) ==>
      var row := Replaced(t[id], u).(updatedAt := now);
      && TakesFrom(row, t[id], u) && (u == NOTHING ==> TakesFrom(t[id], t[id], u))
      && (SchemaOk(row) <==> Acceptable(row))
      && forall r :: TakesFrom(r, t[id], u) ==> r.name == row.name && (Acceptable(r) <==> Acceptable(row))
  {
    hide SchemaOk;
    if id in t {
      SchemaAccepts(Replaced(t[id], u).(updatedAt := now));
    }
  }

  /** The update with the reply as it reads to a caller: which row it changed into what, or why it
      changed none. */
  method UpdateRule(t: Table, tenant: int, id: int, u: Update, now: int) returns (t': Table, reply: Reply)
    ensures UpdatedAs(t, t', tenant, id, u, now, reply)
    ensures reply.NotEncodable? <==> u.config.Some? && u.config.value.Unencodable?
    ensures reply.NotFound? <==> !reply.NotEncodable? && !(id in t && t[id].tenant == tenant)
    ensures reply.Found? ==>
      && id in t && t[id].tenant == tenant && t' == t[id := reply.row] && TakesFrom(reply.row, t[id], u)
      && reply.row.updatedAt == (if NamesNone(u) then t[id].updatedAt else now)
      && (!NamesNone(u) ==> Acceptable(reply.row) && NameIsFree(t, tenant, id, reply.row.name))
    ensures reply.RefusedBySchema? ==>
      id in t && forall r :: TakesFrom(r, t[id], u) ==> !Acceptable(r) || !NameIsFree(t, tenant, id, r.name)
    ensures !reply.Found? ==> t' == t
  {
    hide SchemaOk;
    UpdateReads(t, tenant, id, u, now);
    t' := t;
    var clauses, args, nextIdx, encoded := BuildRuleUpdateSets(u);
    if !encoded {
      return t, NotEncodable;
    }
    if |clauses| == 0 {
      reply := GetByID(t, tenant, id);
      return;
    }
    ghost var before := args;
    args := args + [Key(tenant), Key(id)];
    forall r ensures Assigned(r, clauses, args) == Replaced(r, u) {
      MoreArgs(r, clauses, before, Key(tenant));
      MoreArgs(r, clauses, before + [Key(tenant)], Key(id));
      assert args == before + [Key(tenant)] + [Key(id)];
    }
    t', reply := Execute(t, clauses, args, nextIdx, now);
    assert args[nextIdx - 1] == Key(tenant) && args[nextIdx] == Key(id);
  }

  /** No update leads out of the schema: the trigger statuses stay the three the engine relies
      on, and names stay unique; other tenants' rules stay as they are. */
  lemma UpdatesKeepSchema(t: Table, t': Table, tenant: int, id: int, u: Update, now: int, reply: Reply)
    requires TableOk(t) && UpdatedAs(t, t', tenant, id, u, now, reply)
    ensures TableOk(t') && t'.Keys == t.Keys
    ensures forall k :: k in t && (t[k].tenant != tenant || k != id) ==> t'[k] == t[k]
  {
  }
}
