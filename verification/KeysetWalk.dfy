/**
 A client that follows cursors from the first page until there is none, while other actors
 insert rows and change statuses and severities between its requests.
*/
module KeysetWalk {
  import opened Domain
  import opened Listing

  /** One request: the table it met and the page it got. */
  datatype Fetch = Fetch(table: Table, page: seq<int>)

  /** Rows stay, and keep their tenant and creation time. Anything else may change. */
  ghost predicate Evolves(t: Table, t': Table) {
    forall id :: id in t ==> id in t' && t'[id].tenant == t[id].tenant && t'[id].createdAt == t[id].createdAt
  }

  function CursorBefore(w: seq<Fetch>, k: nat): Option<int>
    requires k <= |w|
  {
    if k == 0 || w[k - 1].page == [] then None else Some(w[k - 1].page[|w[k - 1].page| - 1])
  }

  /** The requests of a walk so far: every page but the last was full, so it gave a cursor. */
  ghost predicate CursorWalk(w: seq<Fetch>, tenant: int, f: Filters, limit: nat) {
    && limit > 0
    && (forall k :: 0 <= k < |w| ==> IsPage(w[k].table, tenant, f, CursorBefore(w, k), limit, w[k].page))
    && (forall k :: 0 <= k < |w| - 1 ==> |w[k].page| == limit && Evolves(w[k].table, w[k + 1].table))
  }

  /** The walk has reached a page that gave no cursor. */
  ghost predicate Complete(w: seq<Fetch>, tenant: int, f: Filters, limit: nat) {
    CursorWalk(w, tenant, f, limit) && w != [] && |w[|w| - 1].page| < limit
  }

  lemma {:induction false} KeysStay(w: seq<Fetch>, tenant: int, f: Filters, limit: nat, k: nat, l: nat)
    requires CursorWalk(w, tenant, f, limit) && k <= l < |w|
    ensures Evolves(w[k].table, w[l].table)
    decreases l
  {
    if k < l {
      KeysStay(w, tenant, f, limit, k, l - 1);
      assert Evolves(w[l - 1].table, w[l - 1 + 1].table);
    }
  }

  lemma PageFacts(w: seq<Fetch>, tenant: int, f: Filters, limit: nat, k: nat)
    requires CursorWalk(w, tenant, f, limit) && k < |w|
    ensures Descending(w[k].table, w[k].page) && limit > 0
    ensures forall i :: 0 <= i < |w[k].page| ==> Wanted(w[k].table, tenant, f, CursorBefore(w, k), w[k].page[i])
    ensures k < |w| - 1 ==> |w[k].page| == limit && CursorBefore(w, k + 1) == Some(w[k].page[limit - 1])
  {
    hide Wanted, Below, Evolves;
  }

  /** The page after is below the whole page before, by the keys of the later table. */
  lemma NextPageBelow(w: seq<Fetch>, tenant: int, f: Filters, limit: nat, k: nat, i: nat, j: nat)
    requires CursorWalk(w, tenant, f, limit) && k + 1 < |w| && i < |w[k].page| && j < |w[k + 1].page|
    ensures w[k].page[i] in w[k + 1].table && w[k + 1].page[j] in w[k + 1].table
    ensures Below(w[k + 1].table, w[k + 1].page[j], w[k].page[i])
  {
    hide CursorWalk, Matches;
    PageFacts(w, tenant, f, limit, k);
    PageFacts(w, tenant, f, limit, k + 1);
    KeysStay(w, tenant, f, limit, k, k + 1);
    assert Wanted(w[k + 1].table, tenant, f, CursorBefore(w, k + 1), w[k + 1].page[j]);
    assert i < limit - 1 ==> Below(w[k].table, w[k].page[limit - 1], w[k].page[i]);
  }

  /** Later pages are below earlier ones. */
  lemma {:induction false} PagesDescend(w: seq<Fetch>, tenant: int, f: Filters, limit: nat, k: nat, i: nat, l: nat, j: nat)
    requires CursorWalk(w, tenant, f, limit) && k < l < |w| && i < |w[k].page| && j < |w[l].page|
    ensures w[k].page[i] in w[l].table && w[l].page[j] in w[l].table
    ensures Below(w[l].table, w[l].page[j], w[k].page[i])
    decreases l
  {
    hide CursorWalk, Matches;
    PageFacts(w, tenant, f, limit, l - 1);
    KeysStay(w, tenant, f, limit, l - 1, l);
    if k < l - 1 {
      PagesDescend(w, tenant, f, limit, k, i, l - 1, limit - 1);
      NextPageBelow(w, tenant, f, limit, l - 1, limit - 1, j);
    } else {
      NextPageBelow(w, tenant, f, limit, k, i, j);
    }
  }

  /** No row is returned twice, whatever happened between the pages. */
  lemma NoRowTwice(w: seq<Fetch>, tenant: int, f: Filters, limit: nat, k: nat, i: nat, l: nat, j: nat)
    requires CursorWalk(w, tenant, f, limit) && k < |w| && l < |w| && i < |w[k].page| && j < |w[l].page|
    requires w[k].page[i] == w[l].page[j]
    ensures k == l && i == j
  {
    if k < l {
      PagesDescend(w, tenant, f, limit, k, i, l, j);
    } else if l < k {
      PagesDescend(w, tenant, f, limit, l, j, k, i);
    } else {
      PageFacts(w, tenant, f, limit, k);
    }
  }

  ghost predicate Returned(w: seq<Fetch>, id: int) {
    exists k :: 0 <= k < |w| && id in w[k].page
  }

  lemma PageCovers(w: seq<Fetch>, tenant: int, f: Filters, limit: nat, k: nat, id: int)
    requires CursorWalk(w, tenant, f, limit) && k < |w| && Wanted(w[k].table, tenant, f, CursorBefore(w, k), id)
    ensures |w[k].page| < limit ==> Returned(w, id)
    ensures Returned(w, id) || forall i :: 0 <= i < |w[k].page| ==>
      w[k].page[i] in w[k].table && Below(w[k].table, id, w[k].page[i])
  {
    assert IsPage(w[k].table, tenant, f, CursorBefore(w, k), limit, w[k].page);
    assert id in w[k].page ==> Returned(w, id);
  }

  /** A row that matched at every page so far was returned, or lies below the next cursor. */
  lemma {:induction false} NotYetReturned(w: seq<Fetch>, tenant: int, f: Filters, limit: nat, id: int, l: nat)
    requires CursorWalk(w, tenant, f, limit) && l < |w|
    requires forall k :: 0 <= k < |w| ==> id in w[k].table && Matches(tenant, f, w[k].table[id])
    ensures Returned(w, id) || Wanted(w[l].table, tenant, f, CursorBefore(w, l), id)
    decreases l
  {
    hide Matches, CursorWalk;
    if l > 0 {
      NotYetReturned(w, tenant, f, limit, id, l - 1);
      KeysStay(w, tenant, f, limit, l - 1, l);
      PageFacts(w, tenant, f, limit, l - 1);
      if !Returned(w, id) {
        PageCovers(w, tenant, f, limit, l - 1, id);
      }
      var cursor := w[l - 1].page[limit - 1];
      assert cursor in w[l - 1].table && id in w[l - 1].table;
      assert cursor in w[l].table && id in w[l].table;
    }
  }

  /** A complete walk returns every row that existed and matched at every page, exactly once. */
  lemma EverySteadyRowOnce(w: seq<Fetch>, tenant: int, f: Filters, limit: nat, id: int)
    requires Complete(w, tenant, f, limit)
    requires forall k :: 0 <= k < |w| ==> id in w[k].table && Matches(tenant, f, w[k].table[id])
    ensures exists k, i ::
      && 0 <= k < |w| && 0 <= i < |w[k].page| && w[k].page[i] == id
      && forall l, j :: 0 <= l < |w| && 0 <= j < |w[l].page| && w[l].page[j] == id ==> l == k && j == i
  {
    hide CursorWalk, Matches, Below;
    var last := |w| - 1;
    NotYetReturned(w, tenant, f, limit, id, last);
    if Wanted(w[last].table, tenant, f, CursorBefore(w, last), id) {
      PageCovers(w, tenant, f, limit, last, id);
    }
    var k :| 0 <= k < |w| && id in w[k].page;
    var i :| 0 <= i < |w[k].page| && w[k].page[i] == id;
    forall m, j | 0 <= m < |w| && 0 <= j < |w[m].page| && w[m].page[j] == id ensures m == k && j == i {
      NoRowTwice(w, tenant, f, limit, k, i, m, j);
    }
  }

  // ---------------------------------------------------------------- a table nobody changes

  function Pages(w: seq<Fetch>): seq<int> {
    if w == [] then [] else Pages(w[..|w| - 1]) + w[|w| - 1].page
  }

  ghost predicate Static(w: seq<Fetch>, t: Table) {
    forall k :: 0 <= k < |w| ==> w[k].table == t
  }

  lemma WalkPrefix(w: seq<Fetch>, tenant: int, f: Filters, limit: nat, n: nat)
    requires CursorWalk(w, tenant, f, limit) && n <= |w|
    ensures CursorWalk(w[..n], tenant, f, limit)
  {
    assert forall k :: 0 <= k < n ==> CursorBefore(w[..n], k) == CursorBefore(w, k);
  }

  lemma ReturnedSplit(w: seq<Fetch>, id: int)
    requires w != []
    ensures Returned(w, id) <==> Returned(w[..|w| - 1], id) || id in w[|w| - 1].page
  {
    var init := w[..|w| - 1];
    if k :| 0 <= k < |w| && id in w[k].page {
      assert k < |w| - 1 ==> id in init[k].page;
    }
    if k :| 0 <= k < |init| && id in init[k].page {
      assert id in w[k].page;
    }
  }

  lemma LastPageBelow(w: seq<Fetch>, t: Table, tenant: int, f: Filters, limit: nat, id: int, j: nat)
    requires CursorWalk(w, tenant, f, limit) && Static(w, t) && w != [] && j < |w[|w| - 1].page|
    requires Returned(w[..|w| - 1], id)
    ensures id in t && w[|w| - 1].page[j] in t && Below(t, w[|w| - 1].page[j], id)
  {
    hide CursorWalk, IsPage;
    var n := |w| - 1;
    var k :| 0 <= k < n && id in w[..n][k].page;
    var m :| 0 <= m < |w[k].page| && w[k].page[m] == id;
    PagesDescend(w, tenant, f, limit, k, m, n, j);
  }

  lemma JoinDescending(t: Table, a: seq<int>, b: seq<int>)
    requires Descending(t, a) && Descending(t, b)
    requires forall id, j :: id in a && 0 <= j < |b| ==> Below(t, b[j], id)
    ensures Descending(t, a + b)
  {
    forall i, j | 0 <= i < |a| && 0 <= j < |b| ensures Below(t, b[j], a[i]) {
      assert a[i] in a;
    }
  }

  /** The pages strung together descend, and say how long they are. */
  lemma {:induction false} PagesTogether(w: seq<Fetch>, t: Table, tenant: int, f: Filters, limit: nat)
    requires CursorWalk(w, tenant, f, limit) && Static(w, t) && w != []
    ensures Descending(t, Pages(w)) && |Pages(w)| == (|w| - 1) * limit + |w[|w| - 1].page|
    ensures forall id :: id in Pages(w) <==> Returned(w, id)
  {
    hide CursorWalk, Returned, Below, IsPage, Matches, Wanted;
    var n := |w| - 1;
    var init, last := w[..n], w[n];
    PageFacts(w, tenant, f, limit, n);
    forall id ensures Returned(w, id) <==> (Returned(init, id) || id in last.page) {
      ReturnedSplit(w, id);
    }
    if n > 0 {
      WalkPrefix(w, tenant, f, limit, n);
      PagesTogether(init, t, tenant, f, limit);
      PageFacts(w, tenant, f, limit, n - 1);
      assert (n - 1) * limit + limit == n * limit;
      forall id, j | id in Pages(init) && 0 <= j < |last.page| ensures Below(t, last.page[j], id) {
        LastPageBelow(w, t, tenant, f, limit, id, j);
      }
      JoinDescending(t, Pages(init), last.page);
    } else {
      assert Pages(init) == [] && Pages(w) == last.page;
      NothingReturned();
    }
  }

  lemma NothingReturned()
    ensures forall id :: !Returned([], id)
  {
  }

  lemma {:induction false} DescendingSize(t: Table, ids: seq<int>)
    requires Descending(t, ids)
    ensures |set id | id in ids| == |ids|
  {
    if ids != [] {
      var n := |ids| - 1;
      DescendingSize(t, ids[..n]);
      var all, rest := set id | id in ids, set id | id in ids[..n];
      assert ids[n] !in rest;
      assert all == rest + {ids[n]};
    }
  }

  ghost predicate SameElements(a: seq<int>, b: seq<int>) {
    (forall i :: 0 <= i < |a| ==> a[i] in b) && (forall i :: 0 <= i < |b| ==> b[i] in a)
  }

  /** There is only one way to list a set of rows in descending order. */
  lemma {:induction false} OneDescendingOrder(t: Table, a: seq<int>, b: seq<int>)
    requires Descending(t, a) && Descending(t, b) && SameElements(a, b)
    ensures a == b
  {
    assert a == [] || a[0] in b;
    assert b == [] || b[0] in a;
    if a != [] {
      var i :| 0 <= i < |b| && b[i] == a[0];
      var j :| 0 <= j < |a| && a[j] == b[0];
      assert i == 0;
      forall k | 0 <= k < |a[1..]| ensures a[1..][k] in b[1..] {
        assert a[k + 1] in b && a[k + 1] != b[0];
      }
      forall k | 0 <= k < |b[1..]| ensures b[1..][k] in a[1..] {
        assert b[k + 1] in a && b[k + 1] != a[0];
      }
      OneDescendingOrder(t, a[1..], b[1..]);
    }
  }

  lemma DivMod(x: nat, d: nat)
    requires d > 0
    ensures x == d * (x / d) + x % d && 0 <= x % d < d
  {
  }

  lemma SmallMultiple(k: int, d: int, e: int)
    requires d > 0 && k * d == e && -d < e < d
    ensures k == 0
  {
    assert k >= 1 ==> k * d >= d;
    assert k <= -1 ==> k * d <= -d;
  }

  lemma Quotient(q: nat, limit: nat, r: nat, total: nat)
    requires limit > 0 && r < limit && total == q * limit + r
    ensures total / limit == q
  {
    DivMod(total, limit);
    var x, m := total / limit, total % limit;
    assert (x - q) * limit == x * limit - q * limit;
    assert x * limit == limit * x;
    SmallMultiple(x - q, limit, r - m);
  }

  /** On an unchanging table the pages strung together are the matching rows in descending
      order, their lengths add up to the total every page reports, and the walk takes exactly
      total / limit + 1 requests. */
  lemma StaticWalk(w: seq<Fetch>, t: Table, tenant: int, f: Filters, limit: nat, sorted: seq<int>)
    requires Complete(w, tenant, f, limit) && Static(w, t)
    requires Descending(t, sorted) && (set id | id in sorted) == Matching(t, tenant, f)
    ensures Pages(w) == sorted && |Pages(w)| == |Matching(t, tenant, f)|
    ensures |w| == |Matching(t, tenant, f)| / limit + 1
  {
    PagesTogether(w, t, tenant, f, limit);
    forall id ensures id in Pages(w) <==> id in Matching(t, tenant, f) {
      if id in Matching(t, tenant, f) {
        EverySteadyRowOnce(w, tenant, f, limit, id);
      }
      if k :| 0 <= k < |w| && id in w[k].page {
        PageFacts(w, tenant, f, limit, k);
      }
    }
    forall i | 0 <= i < |sorted| ensures sorted[i] in Pages(w) {
      assert sorted[i] in (set id | id in sorted);
    }
    forall i | 0 <= i < |Pages(w)| ensures Pages(w)[i] in sorted {
      assert Pages(w)[i] in Pages(w);
    }
    OneDescendingOrder(t, Pages(w), sorted);
    DescendingSize(t, Pages(w));
    assert (set id | id in Pages(w)) == Matching(t, tenant, f);
    Quotient(|w| - 1, limit, |w[|w| - 1].page|, |Pages(w)|);
  }

  // ---------------------------------------------------------------- the client

  /** Following the handler's cursors, from the first page until there is none, while the table
      evolves between the requests: the requests made are a walk, and a complete one if the
      client met a page without a cursor. */
  method FollowCursors(tables: seq<Table>, tenant: int, q: Query) returns (w: seq<Fetch>, done: bool)
    requires q.cursor == None && forall k :: 0 <= k < |tables| - 1 ==> Evolves(tables[k], tables[k + 1])
    ensures CursorWalk(w, tenant, FiltersOf(q), PageLimit(q)) && |w| <= |tables|
    ensures forall k :: 0 <= k < |w| ==> w[k].table == tables[k]
    ensures if done then Complete(w, tenant, FiltersOf(q), PageLimit(q)) else |w| == |tables|
  {
    hide IsPage, Matches, Below, Evolves, CursorWalk;
    w, done := [], false;
    NoFetchYet(tenant, FiltersOf(q), PageLimit(q));
    var cursor: Option<int> := None;
    while |w| < |tables| && !done
      invariant |w| <= |tables| && forall k :: 0 <= k < |w| ==> w[k].table == tables[k]
      invariant CursorWalk(w, tenant, FiltersOf(q), PageLimit(q))
      invariant done ==> Complete(w, tenant, FiltersOf(q), PageLimit(q))
      invariant !done ==> cursor == CursorBefore(w, |w|) && (w != [] ==> |w[|w| - 1].page| == PageLimit(q))
      decreases |tables| - |w|, !done
    {
      var t := tables[|w|];
      var page, _, next := HandleList(t, tenant, q.(cursor := cursor));
      CursorIsNoFilter(t, tenant, q, cursor, PageLimit(q), page);
      PageIsShort(t, tenant, FiltersOf(q), cursor, PageLimit(q), page);
      NextFetch(w, tenant, FiltersOf(q), PageLimit(q), Fetch(t, page));
      w := w + [Fetch(t, page)];
      cursor, done := next, next == None;
    }
  }

  lemma NoFetchYet(tenant: int, f: Filters, limit: nat)
    requires limit > 0
    ensures CursorWalk([], tenant, f, limit)
  {
  }

  lemma PageIsShort(t: Table, tenant: int, f: Filters, cursor: Option<int>, limit: nat, page: seq<int>)
    requires IsPage(t, tenant, f, cursor, limit, page)
    ensures |page| <= limit
  {
  }

  lemma CursorIsNoFilter(t: Table, tenant: int, q: Query, cursor: Option<int>, limit: nat, page: seq<int>)
    requires IsPage(t, tenant, FiltersOf(q.(cursor := cursor)), cursor, limit, page)
    ensures IsPage(t, tenant, FiltersOf(q), cursor, limit, page)
  {
    hide Descending, Below;
    forall r: Row ensures Matches(tenant, FiltersOf(q.(cursor := cursor)), r) <==> Matches(tenant, FiltersOf(q), r) {
    }
  }

  lemma SameCursor(w: seq<Fetch>, next: Fetch, k: nat)
    requires k <= |w|
    ensures CursorBefore(w + [next], k) == CursorBefore(w, k)
  {
  }

  lemma NextFetch(w: seq<Fetch>, tenant: int, f: Filters, limit: nat, next: Fetch)
    requires CursorWalk(w, tenant, f, limit) && IsPage(next.table, tenant, f, CursorBefore(w, |w|), limit, next.page)
    requires w != [] ==> |w[|w| - 1].page| == limit && Evolves(w[|w| - 1].table, next.table)
    ensures CursorWalk(w + [next], tenant, f, limit)
  {
    hide IsPage, Evolves, Matches, Below, CursorBefore;
    var w' := w + [next];
    forall k | 0 <= k < |w'| ensures IsPage(w'[k].table, tenant, f, CursorBefore(w', k), limit, w'[k].page) {
      SameCursor(w, next, k);
      assert k < |w| ==> IsPage(w[k].table, tenant, f, CursorBefore(w, k), limit, w[k].page);
    }
    forall k | 0 <= k < |w'| - 1 ensures |w'[k].page| == limit && Evolves(w'[k].table, w'[k + 1].table) {
      assert k < |w| - 1 ==> |w[k].page| == limit && Evolves(w[k].table, w[k + 1].table);
    }
  }

  // ---------------------------------------------------------------- the dates nobody reads

  predicate InRange(r: Row, from: Option<int>, to: Option<int>) {
    (from.Some? ==> r.createdAt >= from.value) && (to.Some? ==> r.createdAt <= to.value)
  }

  function Dated(q: Query, from: Option<int>, to: Option<int>): Filters {
    FiltersOf(q).(dateFrom := from, dateTo := to)
  }

  /** A page has as many rows as there are, up to its limit, and there is only one. */
  lemma OnePage(t: Table, tenant: int, f: Filters, cursor: Option<int>, limit: nat, a: seq<int>, b: seq<int>)
    requires IsPage(t, tenant, f, cursor, limit, a) && IsPage(t, tenant, f, cursor, limit, b)
    ensures a == b
  {
    NoneLeftOut(t, tenant, f, cursor, limit, a, b);
    NoneLeftOut(t, tenant, f, cursor, limit, b, a);
    OneDescendingOrder(t, a, b);
  }

  lemma NoneLeftOut(t: Table, tenant: int, f: Filters, cursor: Option<int>, limit: nat, a: seq<int>, b: seq<int>)
    requires IsPage(t, tenant, f, cursor, limit, a) && IsPage(t, tenant, f, cursor, limit, b)
    ensures forall i :: 0 <= i < |a| ==> a[i] in b
  {
    forall i | 0 <= i < |a| ensures a[i] in b {
      if a[i] !in b {
        assert Wanted(t, tenant, f, cursor, a[i]);
        forall j | 0 <= j < |b| ensures b[j] in a {
          assert Below(t, a[i], b[j]) && Wanted(t, tenant, f, cursor, b[j]);
        }
        var all, some := set id | id in a, set id | id in b;
        DescendingSize(t, a);
        DescendingSize(t, b);
        assert some <= all - {a[i]};
        Smaller(some, all - {a[i]});
      }
    }
  }

  lemma Smaller(a: set<int>, b: set<int>)
    requires a <= b
    ensures |a| <= |b|
  {
    assert b == a + (b - a);
  }

  /** The rows wanted by this query that come before row `id`. */
  ghost function Above(t: Table, tenant: int, f: Filters, cursor: Option<int>, id: int): set<int> {
    set x | x in t && id in t && Wanted(t, tenant, f, cursor, x) && Below(t, id, x)
  }

  /** A wanted row is on the page exactly when fewer than `limit` wanted rows come before it. */
  lemma OnPageIff(t: Table, tenant: int, f: Filters, cursor: Option<int>, limit: nat, page: seq<int>, id: int)
    requires IsPage(t, tenant, f, cursor, limit, page) && Wanted(t, tenant, f, cursor, id)
    ensures id in page <==> |Above(t, tenant, f, cursor, id)| < limit
  {
    hide Matches;
    var above := Above(t, tenant, f, cursor, id);
    if id in page {
      var i :| 0 <= i < |page| && page[i] == id;
      forall x | x in above ensures x in page[..i] {
        assert x in page;
        var j :| 0 <= j < |page| && page[j] == x;
        assert j < i;
        assert page[..i][j] == x;
      }
      DescendingSize(t, page[..i]);
      Smaller(above, (set x | x in page[..i]));
    } else {
      forall i | 0 <= i < |page| ensures page[i] in above {
        assert Wanted(t, tenant, f, cursor, page[i]);
      }
      DescendingSize(t, page);
      Smaller((set x | x in page), above);
    }
  }

  /** A page of the undated listing is that of the dated one exactly when none of its rows is out
      of the range. */
  lemma PageInRange(
    t: Table, tenant: int, q: Query, from: Option<int>, to: Option<int>, page: seq<int>, dated: seq<int>)
    requires IsPage(t, tenant, FiltersOf(q), q.cursor, PageLimit(q), page)
    requires IsPage(t, tenant, Dated(q, from, to), q.cursor, PageLimit(q), dated)
    ensures page == dated <==> forall i :: 0 <= i < |page| ==> InRange(t[page[i]], from, to)
  {
    hide Below, PageLimit, Matches;
    MatchesDated(tenant, q, from, to);
    forall i | 0 <= i < |dated| ensures InRange(t[dated[i]], from, to) {
      assert Wanted(t, tenant, Dated(q, from, to), q.cursor, dated[i]);
    }
    if forall i :: 0 <= i < |page| ==> InRange(t[page[i]], from, to) {
      forall i | 0 <= i < |page| ensures Wanted(t, tenant, Dated(q, from, to), q.cursor, page[i]) {
        assert Wanted(t, tenant, FiltersOf(q), q.cursor, page[i]);
      }
      forall id | Wanted(t, tenant, Dated(q, from, to), q.cursor, id) ensures Wanted(t, tenant, FiltersOf(q), q.cursor, id) {
      }
      assert IsPage(t, tenant, Dated(q, from, to), q.cursor, PageLimit(q), page);
      OnePage(t, tenant, Dated(q, from, to), q.cursor, PageLimit(q), page, dated);
    }
  }

  /** The handler documents a date range and does not read it. It returns the page of the dated
      listing exactly when every wanted row out of the range has at least a page of wanted rows
      before it, in particular when there are no dates. */
  lemma PageIgnoresDates(
    t: Table, tenant: int, q: Query, from: Option<int>, to: Option<int>, page: seq<int>, dated: seq<int>)
    requires IsPage(t, tenant, FiltersOf(q), q.cursor, PageLimit(q), page)
    requires IsPage(t, tenant, Dated(q, from, to), q.cursor, PageLimit(q), dated)
    ensures page == dated <==>
      forall id :: Wanted(t, tenant, FiltersOf(q), q.cursor, id) && !InRange(t[id], from, to) ==>
        |Above(t, tenant, FiltersOf(q), q.cursor, id)| >= PageLimit(q)
  {
    hide Matches, Below, PageLimit, Above, InRange;
    PageInRange(t, tenant, q, from, to, page, dated);
    forall id | Wanted(t, tenant, FiltersOf(q), q.cursor, id)
      ensures id in page <==> |Above(t, tenant, FiltersOf(q), q.cursor, id)| < PageLimit(q)
    {
      OnPageIff(t, tenant, FiltersOf(q), q.cursor, PageLimit(q), page, id);
    }
    assert forall i :: 0 <= i < |page| ==> Wanted(t, tenant, FiltersOf(q), q.cursor, page[i]) && page[i] in page;
  }

  /** It does make a difference: a table of one matching row, asked for what came after it. */
  lemma DateIsIgnored(id: int, r: Row, tenant: int, q: Query)
    requires Matches(tenant, FiltersOf(q), r) && q.cursor == None
    ensures IsPage(map[id := r], tenant, FiltersOf(q), q.cursor, PageLimit(q), [id])
    ensures IsPage(map[id := r], tenant, Dated(q, Some(r.createdAt + 1), None), q.cursor, PageLimit(q), [])
  {
    MatchesDated(tenant, q, Some(r.createdAt + 1), None);
  }

  /** Its total is the dated total exactly when no matching row is out of the range. */
  lemma TotalIgnoresDates(t: Table, tenant: int, q: Query, from: Option<int>, to: Option<int>)
    ensures |Matching(t, tenant, FiltersOf(q))| == |Matching(t, tenant, Dated(q, from, to))|
       <==> forall id :: id in Matching(t, tenant, FiltersOf(q)) ==> InRange(t[id], from, to)
  {
    hide Matches;
    MatchesDated(tenant, q, from, to);
    var all, some := Matching(t, tenant, FiltersOf(q)), Matching(t, tenant, Dated(q, from, to));
    assert some <= all;
    assert forall id :: id in some <==> id in all && InRange(t[id], from, to);
    assert (forall id :: id in all ==> InRange(t[id], from, to)) ==> all == some;
    if |all| == |some| {
      SameSize(some, all);
    }
  }

  lemma SameSize(a: set<int>, b: set<int>)
    requires a <= b && |a| == |b|
    ensures a == b
  {
    assert b == a + (b - a);
  }

  lemma MatchesDated(tenant: int, q: Query, from: Option<int>, to: Option<int>)
    ensures forall r :: Matches(tenant, Dated(q, from, to), r) <==> Matches(tenant, FiltersOf(q), r) && InRange(r, from, to)
  {
  }
}
