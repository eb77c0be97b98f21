/**
 The listing over the service's own tables: what the cursor walk needs of a table that changes
 under it, every run of the machine provides.
*/
module ServiceListing {
  import opened Domain
  import Ledger
  import Machine
  import AnyRun
  import Locking
  import L = Listing
  import K = KeysetWalk

  /** The columns written once, at the insert: discrepancy type and source system. */
  type Fixed = int -> (string, string)

  /** The table the listing reads at moment `i` of a run. */
  function TableAt(acts: seq<Machine.Act>, i: nat, fixed: Fixed): L.Table
    requires i <= |acts|
  {
    var discs := Locking.At(acts, i).tables.discs;
    map d | d in discs ::
      L.Row(discs[d].tenant, StatusName(discs[d].status), SeverityName(discs[d].severity),
            fixed(d).0, fixed(d).1, discs[d].createdAt)
  }

  /** Between two moments of a run, whoever acts and whatever fails, the listed table only
      evolves: no row goes, and none changes its tenant or its place. */
  lemma RunsEvolve(acts: seq<Machine.Act>, i: nat, j: nat, fixed: Fixed)
    requires i <= j <= |acts|
    ensures K.Evolves(TableAt(acts, i, fixed), TableAt(acts, j, fixed))
  {
    hide Machine.Run, StatusName, SeverityName;
    assert acts[..j] == acts[..i] + acts[i..j];
    AnyRun.LedgerOnlyGrows(acts[..i], acts[i..j]);
  }

  /** Requests made at these moments of a run, one after the other, each with the cursor of the
      page before it: a client of the service. */
  ghost predicate Requests(
    acts: seq<Machine.Act>, moments: seq<nat>, fixed: Fixed, w: seq<K.Fetch>, tenant: int, f: L.Filters, limit: nat)
  {
    && limit > 0 && |moments| == |w|
    && (forall k :: 0 <= k < |w| ==> moments[k] <= |acts| && w[k].table == TableAt(acts, moments[k], fixed))
    && (forall k :: 0 <= k < |w| - 1 ==> moments[k] <= moments[k + 1] && |w[k].page| == limit)
    && (forall k :: 0 <= k < |w| ==> L.IsPage(w[k].table, tenant, f, K.CursorBefore(w, k), limit, w[k].page))
  }

  lemma RequestsWalk(
    acts: seq<Machine.Act>, moments: seq<nat>, fixed: Fixed, w: seq<K.Fetch>, tenant: int, f: L.Filters, limit: nat)
    requires Requests(acts, moments, fixed, w, tenant, f, limit)
    ensures K.CursorWalk(w, tenant, f, limit)
  {
    hide L.IsPage, K.Evolves, TableAt;
    forall k | 0 <= k < |w| - 1 ensures |w[k].page| == limit && K.Evolves(w[k].table, w[k + 1].table) {
      RunsEvolve(acts, moments[k], moments[k + 1], fixed);
    }
  }

  /** In every run of the service, a client that follows the cursors gets no row twice, and, once a
      page gives no cursor, has got every row that existed and matched at each of its requests
      exactly once. */
  lemma ServiceWalk(
    acts: seq<Machine.Act>, moments: seq<nat>, fixed: Fixed, w: seq<K.Fetch>, tenant: int, f: L.Filters, limit: nat, id: int)
    requires Requests(acts, moments, fixed, w, tenant, f, limit)
    ensures forall k, i, l, j | 0 <= k < |w| && 0 <= l < |w| && 0 <= i < |w[k].page| && 0 <= j < |w[l].page| ::
      w[k].page[i] == id && w[l].page[j] == id ==> k == l && i == j
    ensures w != [] && |w[|w| - 1].page| < limit
      && (forall k :: 0 <= k < |w| ==> id in w[k].table && L.Matches(tenant, f, w[k].table[id]))
      ==> exists k, i :: 0 <= k < |w| && 0 <= i < |w[k].page| && w[k].page[i] == id
  {
    hide Requests, L.Matches, K.CursorWalk;
    RequestsWalk(acts, moments, fixed, w, tenant, f, limit);
    forall k, i, l, j | 0 <= k < |w| && 0 <= l < |w| && 0 <= i < |w[k].page| && 0 <= j < |w[l].page|
      && w[k].page[i] == id && w[l].page[j] == id
      ensures k == l && i == j
    {
      K.NoRowTwice(w, tenant, f, limit, k, i, l, j);
    }
    if w != [] && |w[|w| - 1].page| < limit
      && (forall k :: 0 <= k < |w| ==> id in w[k].table && L.Matches(tenant, f, w[k].table[id])) {
      K.EverySteadyRowOnce(w, tenant, f, limit, id);
    }
  }
}
