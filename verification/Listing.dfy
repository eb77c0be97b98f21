/**
 Keyset-paginated listing: a filter record compiled to placeholders, one page of it, and a
 client that follows cursors while the table changes under it.
*/
module Listing {
  import opened Domain

  /** The columns of discrepancies that listing reads. */
  datatype Row = Row(
    tenant: int, status: string, severity: string, discrepancyType: string, sourceSystem: string, createdAt: int)

  type Table = map<int, Row>

  /** ListFilters without the limit; an empty text filters nothing. */
  datatype Filters = Filters(
    status: string, severity: string, discrepancyType: string, sourceSystem: string,
    dateFrom: Option<int>, dateTo: Option<int>, cursor: Option<int>)

  // ---------------------------------------------------------------- compiled form

  datatype Column = TenantId | StatusCol | SeverityCol | TypeCol | SourceCol | CreatedAt

  datatype Cmp = Eq | AtLeast | AtMost

  /** A conjunct of the WHERE clause. `arg` is the number of its placeholder, counted from 1. */
  datatype Clause =
    | Compare(column: Column, cmp: Cmp, arg: nat)
    | BelowCursor(arg: nat)

  datatype Arg = Text(text: string) | Time(time: int) | Key(id: int) | Number(n: int)

  function ColumnOf(r: Row, c: Column): Arg {
    match c
    case TenantId => Key(r.tenant)
    case StatusCol => Text(r.status)
    case SeverityCol => Text(r.severity)
    case TypeCol => Text(r.discrepancyType)
    case SourceCol => Text(r.sourceSystem)
    case CreatedAt => Time(r.createdAt)
  }

  predicate Compares(a: Arg, cmp: Cmp, b: Arg) {
    match cmp
    case Eq => a == b
    case AtLeast => a.Time? && b.Time? && a.time >= b.time
    case AtMost => a.Time? && b.Time? && a.time <= b.time
  }

  /** (created_at, id) of `a` is below that of `b`. */
  predicate Below(t: Table, a: int, b: int)
    requires a in t && b in t
  {
    t[a].createdAt < t[b].createdAt || (t[a].createdAt == t[b].createdAt && a < b)
  }

  /** The clause, with its placeholder filled in from `args`, holds of row `id`. The cursor's
      subquery looks the cursor row up by id alone, and is NULL when there is none. */
  predicate Holds(c: Clause, args: seq<Arg>, t: Table, id: int)
    requires id in t
  {
    && 1 <= c.arg <= |args|
    && var a := args[c.arg - 1];
       match c
       case Compare(col, cmp, _) => Compares(ColumnOf(t[id], col), cmp, a)
       case BelowCursor(_) => a.Key? && a.id in t && Below(t, id, a.id)
  }

  predicate Selected(where: seq<Clause>, args: seq<Arg>, t: Table, id: int)
    requires id in t
  {
    forall i :: 0 <= i < |where| ==> Holds(where[i], args, t, id)
  }

  /** Placeholder k stands in clause k and for argument k. */
  predicate Numbered(where: seq<Clause>, args: seq<Arg>) {
    |where| == |args| && forall i :: 0 <= i < |where| ==> where[i].arg == i + 1
  }

  // ---------------------------------------------------------------- direct form

  predicate Matches(tenant: int, f: Filters, r: Row) {
    && r.tenant == tenant
    && (f.status != "" ==> r.status == f.status)
    && (f.severity != "" ==> r.severity == f.severity)
    && (f.discrepancyType != "" ==> r.discrepancyType == f.discrepancyType)
    && (f.sourceSystem != "" ==> r.sourceSystem == f.sourceSystem)
    && (f.dateFrom.Some? ==> r.createdAt >= f.dateFrom.value)
    && (f.dateTo.Some? ==> r.createdAt <= f.dateTo.value)
  }

  predicate PastCursor(t: Table, cursor: Option<int>, id: int)
    requires id in t
  {
    cursor.Some? ==> cursor.value in t && Below(t, id, cursor.value)
  }

  lemma OneMoreClause(where: seq<Clause>, args: seq<Arg>, c: Clause, a: Arg, t: Table, id: int)
    requires Numbered(where, args) && c.arg == |args| + 1 && id in t
    ensures Selected(where + [c], args + [a], t, id) <==> Selected(where, args, t, id) && Holds(c, args + [a], t, id)
  {
    forall i | 0 <= i < |where| ensures Holds(where[i], args + [a], t, id) <==> Holds(where[i], args, t, id) {
      assert where[i].arg == i + 1;
      assert (args + [a])[i] == args[i];
    }
    var longer := where + [c];
    if Selected(longer, args + [a], t, id) {
      assert Holds(longer[|where|], args + [a], t, id);
      forall i | 0 <= i < |where| ensures Holds(where[i], args, t, id) {
        assert Holds(longer[i], args + [a], t, id);
      }
    }
  }

  /** One `if` of the builder. */
  method AndColumn(where: seq<Clause>, args: seq<Arg>, idx: nat, present: bool, col: Column, cmp: Cmp, a: Arg)
    returns (where': seq<Clause>, args': seq<Arg>, idx': nat)
    requires Numbered(where, args) && idx == |args| + 1
    ensures Numbered(where', args') && idx' == |args'| + 1
    ensures forall t: Table, id | id in t ::
      Selected(where', args', t, id) <==> Selected(where, args, t, id) && (present ==> Compares(ColumnOf(t[id], col), cmp, a))
  {
    where', args', idx' := where, args, idx;
    if present {
      where' := where' + [Compare(col, cmp, idx)];
      args' := args' + [a];
      idx' := idx' + 1;
      forall t: Table, id | id in t
        ensures Selected(where', args', t, id) <==> Selected(where, args, t, id) && Compares(ColumnOf(t[id], col), cmp, a)
      {
        OneMoreClause(where, args, Compare(col, cmp, idx), a, t, id);
      }
    }
  }

  /** The compiled clauses select exactly the rows the filters describe, whatever the table;
      the k-th placeholder stands for the k-th argument, and `idx` is the next free number. */
  method BuildListWhere(tenant: int, f: Filters, includeCursor: bool)
    returns (where: seq<Clause>, args: seq<Arg>, idx: nat)
    ensures Numbered(where, args) && idx == |args| + 1
    ensures forall t: Table, id | id in t ::
      Selected(where, args, t, id) <==> Matches(tenant, f, t[id]) && (includeCursor ==> PastCursor(t, f.cursor, id))
  {
    hide Selected, Numbered, Below;
    where, args, idx := FromTexts(tenant, f);
    where, args, idx := AndColumn(where, args, idx, f.dateFrom.Some?, CreatedAt, AtLeast,
                                  Time(if f.dateFrom.Some? then f.dateFrom.value else 0));
    where, args, idx := AndColumn(where, args, idx, f.dateTo.Some?, CreatedAt, AtMost,
                                  Time(if f.dateTo.Some? then f.dateTo.value else 0));
    if includeCursor && f.cursor.Some? {
      where, args, idx := AndCursor(where, args, idx, f.cursor.value);
    }
  }

  /** The filters on texts. */
  method FromTexts(tenant: int, f: Filters) returns (where: seq<Clause>, args: seq<Arg>, idx: nat)
    ensures Numbered(where, args) && idx == |args| + 1
    ensures forall t: Table, id | id in t ::
      Selected(where, args, t, id) <==> Matches(tenant, f.(dateFrom := None, dateTo := None), t[id])
  {
    hide Selected, Numbered, Below;
    where, args, idx := FromTenant(tenant);
    where, args, idx := AndColumn(where, args, idx, f.status != "", StatusCol, Eq, Text(f.status));
    where, args, idx := AndColumn(where, args, idx, f.severity != "", SeverityCol, Eq, Text(f.severity));
    where, args, idx := AndColumn(where, args, idx, f.discrepancyType != "", TypeCol, Eq, Text(f.discrepancyType));
    where, args, idx := AndColumn(where, args, idx, f.sourceSystem != "", SourceCol, Eq, Text(f.sourceSystem));
  }

  method FromTenant(tenant: int) returns (where: seq<Clause>, args: seq<Arg>, idx: nat)
    ensures Numbered(where, args) && idx == |args| + 1
    ensures forall t: Table, id | id in t :: Selected(where, args, t, id) <==> t[id].tenant == tenant
  {
    where, args, idx := [Compare(TenantId, Eq, 1)], [Key(tenant)], 2;
    forall t: Table, id | id in t ensures Selected(where, args, t, id) <==> t[id].tenant == tenant {
      if Selected(where, args, t, id) {
        assert Holds(where[0], args, t, id);
      }
    }
  }

  method AndCursor(where: seq<Clause>, args: seq<Arg>, idx: nat, cursor: int)
    returns (where': seq<Clause>, args': seq<Arg>, idx': nat)
    requires Numbered(where, args) && idx == |args| + 1
    ensures Numbered(where', args') && idx' == |args'| + 1
    ensures forall t: Table, id | id in t ::
      Selected(where', args', t, id) <==> Selected(where, args, t, id) && PastCursor(t, Some(cursor), id)
  {
    where' := where + [BelowCursor(idx)];
    args' := args + [Key(cursor)];
    idx' := idx + 1;
    forall t: Table, id | id in t
      ensures Selected(where', args', t, id) <==> Selected(where, args, t, id) && PastCursor(t, Some(cursor), id)
    {
      OneMoreClause(where, args, BelowCursor(idx), Key(cursor), t, id);
    }
  }

  // ---------------------------------------------------------------- one page

  predicate Wanted(t: Table, tenant: int, f: Filters, cursor: Option<int>, id: int) {
    id in t && Matches(tenant, f, t[id]) && PastCursor(t, cursor, id)
  }

  predicate Descending(t: Table, ids: seq<int>) {
    && (forall i :: 0 <= i < |ids| ==> ids[i] in t)
    && (forall i, j :: 0 <= i < j < |ids| ==> Below(t, ids[j], ids[i]))
  }

  /** The first `limit` wanted rows by (created_at, id) descending. */
  ghost predicate IsPage(t: Table, tenant: int, f: Filters, cursor: Option<int>, limit: nat, page: seq<int>) {
    && Descending(t, page) && |page| <= limit
    && (forall i :: 0 <= i < |page| ==> Wanted(t, tenant, f, cursor, page[i]))
    && (forall id :: Wanted(t, tenant, f, cursor, id) && id !in page ==>
          |page| == limit && forall i :: 0 <= i < |page| ==> Below(t, id, page[i]))
  }

  method Greatest(t: Table, s: set<int>) returns (g: int)
    requires s != {} && forall id :: id in s ==> id in t
    ensures g in s && forall id :: id in s && id != g ==> Below(t, id, g)
  {
    g := AnyOf(s);
    var rest := s - {g};
    while rest != {}
      invariant rest <= s && g in s && g !in rest
      invariant forall id :: id in s && id !in rest && id != g ==> Below(t, id, g)
      decreases rest
    {
      var d := AnyOf(rest);
      rest := rest - {d};
      if Below(t, g, d) {
        g := d;
      }
    }
  }

  lemma ExtraArg(where: seq<Clause>, args: seq<Arg>, a: Arg, t: Table, id: int)
    requires Numbered(where, args) && id in t
    ensures Selected(where, args + [a], t, id) <==> Selected(where, args, t, id)
  {
    forall i | 0 <= i < |where| ensures Holds(where[i], args + [a], t, id) <==> Holds(where[i], args, t, id) {
      assert where[i].arg == i + 1;
      assert (args + [a])[i] == args[i];
    }
  }

  /** listPage: ORDER BY created_at DESC, id DESC LIMIT $idx, read row by row. */
  method ListPage(t: Table, tenant: int, f: Filters, limit: nat) returns (results: seq<int>)
    ensures IsPage(t, tenant, f, f.cursor, limit, results)
  {
    var where, args, idx := BuildListWhere(tenant, f, true);
    forall id | id in t ensures Selected(where, args + [Number(limit)], t, id) <==> Selected(where, args, t, id) {
      ExtraArg(where, args, Number(limit), t, id);
    }
    args := args + [Number(limit)];
    var bound := args[idx - 1].n;
    var rest := set id | id in t && Selected(where, args, t, id);
    results := [];
    while rest != {} && |results| < bound
      invariant |results| <= bound && Descending(t, results)
      invariant forall id :: id in rest ==> Wanted(t, tenant, f, f.cursor, id)
      invariant forall id :: Wanted(t, tenant, f, f.cursor, id) <==> id in rest || id in results
      invariant forall id, i :: id in rest && 0 <= i < |results| ==> Below(t, id, results[i])
      decreases rest
    {
      var g := Greatest(t, rest);
      rest := rest - {g};
      results := results + [g];
    }
  }

  /** listCount: the same filters without the cursor. */
  method ListCount(t: Table, tenant: int, f: Filters) returns (total: nat)
    ensures total == |Matching(t, tenant, f)|
  {
    var where, args, idx := BuildListWhere(tenant, f, false);
    var s := set id | id in t && Selected(where, args, t, id);
    assert s == Matching(t, tenant, f);
    total := |s|;
  }

  ghost function Matching(t: Table, tenant: int, f: Filters): set<int> {
    set id | id in t && Matches(tenant, f, t[id])
  }

  /** DiscrepancyStore.List, with its own clamp of the limit. */
  method List(t: Table, tenant: int, f: Filters, limit: int) returns (results: seq<int>, total: nat)
    ensures IsPage(t, tenant, f, f.cursor, if limit <= 0 then 25 else if limit > 100 then 100 else limit, results)
    ensures total == |Matching(t, tenant, f)|
  {
    var clamped := limit;
    if clamped <= 0 {
      clamped := 25;
    }
    if clamped > 100 {
      clamped := 100;
    }
    total := ListCount(t, tenant, f);
    results := ListPage(t, tenant, f, clamped);
  }

  /** The query string: `limit` is the parsed number, if it is one. Dates are accepted by the
      interface's documentation but not read. */
  datatype Query = Query(
    status: string, severity: string, discrepancyType: string, sourceSystem: string,
    dateFrom: string, dateTo: string, cursor: Option<int>, limit: Option<int>)

  function PageLimit(q: Query): (limit: nat)
    ensures 1 <= limit <= 100
  {
    if q.limit.Some? && q.limit.value > 100 then 100
    else if q.limit.Some? && q.limit.value > 0 then q.limit.value
    else 25
  }

  function FiltersOf(q: Query): Filters {
    Filters(q.status, q.severity, q.discrepancyType, q.sourceSystem, None, None, q.cursor)
  }

  /** The row answers the query: it is the tenant's, and has every text the query gives. */
  predicate Answers(r: Row, tenant: int, q: Query) {
    && r.tenant == tenant
    && (q.status == "" || r.status == q.status)
    && (q.severity == "" || r.severity == q.severity)
    && (q.discrepancyType == "" || r.discrepancyType == q.discrepancyType)
    && (q.sourceSystem == "" || r.sourceSystem == q.sourceSystem)
  }

  /** A full page by the query's own limit: that limit from 1 to 100, 100 above it, 25 otherwise. */
  predicate FullLength(q: Query, n: nat) {
    match q.limit
    case None => n == 25
    case Some(l) => if l > 100 then n == 100 else if l > 0 then n == l else n == 25
  }

  /** The row comes after the cursor's: it was created earlier, or at the same time with a smaller
      id. Without a cursor every row does; after one that is gone, none. */
  predicate After(t: Table, cursor: Option<int>, id: int)
    requires id in t
  {
    match cursor
    case None => true
    case Some(c) => c in t && (t[id].createdAt < t[c].createdAt || (t[id].createdAt == t[c].createdAt && id < c))
  }

  lemma MatchesAnswers(tenant: int, q: Query)
    ensures forall r :: Matches(tenant, FiltersOf(q), r) <==> Answers(r, tenant, q)
    ensures forall n: nat :: FullLength(q, n) <==> n == PageLimit(q)
    ensures forall t: Table, id | id in t :: PastCursor(t, q.cursor, id) <==> After(t, q.cursor, id)
  {
  }

  /** The handler's List: the first rows that answer the query after the cursor, in descending
      order; how many answer it, before or after the cursor; and a cursor exactly when the page is
      full. A row that should be there is left out only of a full page, whose rows all precede it. */
  method HandleList(t: Table, tenant: int, q: Query) returns (page: seq<int>, total: nat, cursor: Option<int>)
    ensures IsPage(t, tenant, FiltersOf(q), q.cursor, PageLimit(q), page)
    ensures total == |Matching(t, tenant, FiltersOf(q))|
    ensures cursor == if |page| == PageLimit(q) then Some(page[|page| - 1]) else None
    ensures forall i :: 0 <= i < |page| ==>
      page[i] in t && Answers(t[page[i]], tenant, q) && After(t, q.cursor, page[i])
    ensures forall i, j :: 0 <= i < j < |page| ==> After(t, Some(page[i]), page[j])
    ensures forall id :: id in t && Answers(t[id], tenant, q) && After(t, q.cursor, id) && id !in page ==>
      FullLength(q, |page|) && forall i :: 0 <= i < |page| ==> After(t, Some(page[i]), id)
    ensures exists n :: FullLength(q, n) && |page| <= n
    ensures total == |set id | id in t && Answers(t[id], tenant, q)|
    ensures if FullLength(q, |page|) then page != [] && cursor == Some(page[|page| - 1]) else cursor == None
  {
    MatchesAnswers(tenant, q);
    page, total := List(t, tenant, FiltersOf(q), PageLimit(q));
    cursor := None;
    if |page| > 0 && |page| == PageLimit(q) {
      cursor := Some(page[|page| - 1]);
    }
    PageAnswers(t, tenant, q, page, total);
  }

  lemma PageAnswers(t: Table, tenant: int, q: Query, page: seq<int>, total: nat)
    requires IsPage(t, tenant, FiltersOf(q), q.cursor, PageLimit(q), page)
    requires total == |Matching(t, tenant, FiltersOf(q))|
    ensures forall i :: 0 <= i < |page| ==>
      page[i] in t && Answers(t[page[i]], tenant, q) && After(t, q.cursor, page[i])
    ensures forall i, j :: 0 <= i < j < |page| ==> After(t, Some(page[i]), page[j])
    ensures forall id :: id in t && Answers(t[id], tenant, q) && After(t, q.cursor, id) && id !in page ==>
      FullLength(q, |page|) && forall i :: 0 <= i < |page| ==> After(t, Some(page[i]), id)
    ensures exists n :: FullLength(q, n) && |page| <= n
    ensures total == |set id | id in t && Answers(t[id], tenant, q)|
  {
    MatchesAnswers(tenant, q);
    hide Matches, Answers, PageLimit;
    assert FullLength(q, PageLimit(q));
    forall id | id in t && Answers(t[id], tenant, q) && After(t, q.cursor, id) && id !in page
      ensures FullLength(q, |page|) && forall i :: 0 <= i < |page| ==> After(t, Some(page[i]), id)
    {
      assert Wanted(t, tenant, FiltersOf(q), q.cursor, id);
    }
    assert Matching(t, tenant, FiltersOf(q)) == set id | id in t && Answers(t[id], tenant, q);
  }
}
