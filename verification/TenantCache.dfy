/**
 The tenant middleware: API keys resolved through an in-memory cache. Requests overlap; between
 any two of one request's steps, other requests may fill the cache.
*/
module TenantCache {
  import opened Domain

  const CACHE_TTL: int := 5 * 60 * 1_000_000_000

  datatype Tenant = Tenant(id: string, isActive: bool)

  datatype Entry = Entry(tenant: Tenant, cachedAt: int)

  /** A look at the database: it began, the database read the row, the result was kept. */
  datatype Lookup = Lookup(started: int, read: int, kept: int)

  datatype Response = MissingKey | InvalidKey | Inactive | Served(tenant: string)

  /** The answer an uncached look at this row gives. */
  function ResponseTo(row: Option<Tenant>): Response {
    match row
    case None => InvalidKey
    case Some(t) => if t.isActive then Served(t.id) else Inactive
  }

  /** An answer at `at` may rest on a look at the database this old. */
  predicate FreshAt(l: Lookup, at: int) {
    l.started <= l.read <= l.kept <= at <= l.kept + CACHE_TTL
  }

  class TenantMiddleware {
    var cache: map<string, Entry>
    var clock: int
    /** What the tenants table holds for a hashed key at an instant, and whether a look at it then
        fails. */
    const tenants: (string, int) -> Option<Tenant>
    const down: (string, int) -> bool
    /** The look each entry comes from. */
    ghost var origin: map<string, Lookup>

    constructor (tenants: (string, int) -> Option<Tenant>, down: (string, int) -> bool, now: int)
      ensures Valid() && cache == map[] && this.tenants == tenants && this.down == down && clock == now
    {
      cache, origin, clock := map[], map[], now;
      this.tenants, this.down := tenants, down;
    }

    /** Only successful looks are remembered, each as the database showed it. */
    ghost predicate Valid()
      reads this
    {
      && origin.Keys == cache.Keys
      && forall k | k in cache ::
           var l := origin[k];
           && l.started <= l.read <= l.kept == cache[k].cachedAt <= clock
           && !down(k, l.read) && tenants(k, l.read) == Some(cache[k].tenant)
    }

    method Now() returns (t: int)
      requires Valid()
      modifies this`clock
      ensures Valid() && t == clock && old(clock) <= t
    {
      var passed: nat :| passed >= 0;
      clock := clock + passed;
      t := clock;
    }

    /** A look at the database. It may fail, which its caller cannot tell from an unknown key. */
    method LookupTenant(key: string) returns (found: Option<Tenant>, failed: bool, ghost started: int, ghost read: int)
      requires Valid()
      modifies this`clock
      ensures Valid() && old(clock) <= started <= read <= clock
      ensures failed == down(key, read) && found == if failed then None else tenants(key, read)
    {
      started := Now();
      var at := Now();
      read := at;
      failed := down(key, at);
      found := if failed then None else tenants(key, at);
    }

    method GetFromCache(key: string) returns (entry: Option<Entry>)
      requires Valid()
      modifies this`clock
      ensures Valid() && old(clock) <= clock
      ensures entry.Some? ==>
        key in cache && entry.value == cache[key] && FreshAt(origin[key], clock)
      ensures entry.Some? <==> key in cache && clock <= cache[key].cachedAt + 300_000_000_000
    {
      var now := Now();
      if key !in cache {
        return None;
      }
      if now - cache[key].cachedAt > CACHE_TTL {
        return None;
      }
      entry := Some(cache[key]);
    }

    method SetCache(key: string, tenant: Tenant, ghost started: int, ghost read: int)
      requires Valid() && started <= read <= clock && !down(key, read) && tenants(key, read) == Some(tenant)
      modifies this
      ensures Valid() && clock >= old(clock)
      ensures cache == old(cache)[key := Entry(tenant, clock)]
      ensures origin == old(origin)[key := Lookup(started, read, clock)]
    {
      var now := Now();
      cache := cache[key := Entry(tenant, now)];
      origin := origin[key := Lookup(started, read, now)];
    }

    /** What other requests may do in the meantime: they add entries and refresh them. */
    method Others()
      requires Valid()
      modifies this
      ensures Valid() && clock >= old(clock)
      ensures forall k :: k in old(cache) ==> k in cache && cache[k].cachedAt >= old(cache)[k].cachedAt
    {
      var many: nat :| many >= 0;
      for i := 0 to many
        invariant Valid() && clock >= old(clock)
        invariant forall k :: k in old(cache) ==> k in cache && cache[k].cachedAt >= old(cache)[k].cachedAt
      {
        var key: string := *;
        var found, _, started, read := LookupTenant(key);
        if found.Some? {
          SetCache(key, found.value, started, read);
        }
      }
    }

    /** Freshness. Every answer rests on a look at the database, `l`. It is the cached one of at most
        five minutes' age (`hit`) whenever there was one from before the request, and else one of
        the request's own. The answer is the database's answer at the instant `l.read`, no older
        than five minutes and the look's own duration, so it is the one at the time it is given
        whenever the tenant did not change in between. Only a look that failed is answered
        otherwise, as an unknown key; and only what was found is remembered. */
    method Handle(key: string) returns (r: Response, at: int, ghost l: Lookup, ghost hit: bool)
      requires Valid()
      modifies this
      ensures Valid() && old(clock) <= at == clock
      ensures key == "" <==> r == MissingKey
      ensures key != "" ==> l.started <= l.read <= l.kept <= at
      ensures key != "" && hit ==> at <= l.kept + 300_000_000_000 && key in cache && origin[key] == l
      ensures key != "" && !hit ==> l.started >= old(clock) && at == l.kept
      ensures key in old(cache) && at <= old(cache)[key].cachedAt + 300_000_000_000 && key != "" ==> hit
      ensures key != "" && hit ==> !down(key, l.read) && tenants(key, l.read).Some?
      ensures key != "" && down(key, l.read) ==> r == InvalidKey
      ensures key != "" && !down(key, l.read) ==> AnswersFor(r, tenants(key, l.read))
      ensures key != "" && !down(key, l.read) && tenants(key, l.read).Some? ==>
        key in cache && origin[key] == l && cache[key] == Entry(tenants(key, l.read).value, l.kept)
      ensures key != "" && !down(key, l.read) && (forall u :: l.read <= u <= at ==> tenants(key, u) == tenants(key, at)) ==>
        AnswersFor(r, tenants(key, at))
    {
      if key == "" {
        return MissingKey, clock, Lookup(0, 0, 0), false;
      }
      Others();
      var entry := GetFromCache(key);
      if entry.Some? {
        return ResponseTo(Some(entry.value.tenant)), clock, origin[key], true;
      }
      Others();
      var found, _, started, read := LookupTenant(key);
      Others();
      if found == None {
        at := Now();
        return InvalidKey, at, Lookup(started, read, at), false;
      }
      SetCache(key, found.value, started, read);
      return ResponseTo(found), clock, origin[key], false;
    }
  }

  /** The row is answered: an active tenant is served under its id, an inactive one is refused, and
      a key without a tenant is invalid. */
  predicate AnswersFor(r: Response, row: Option<Tenant>) {
    if row == None then r == InvalidKey
    else if row.value.isActive then r == Served(row.value.id)
    else r == Inactive
  }

  /** A tenant deactivated at `since` and left so is refused by every answer that is given later
      than the TTL plus its look's duration. */
  lemma DeactivationTakesHold(tenants: (string, int) -> Option<Tenant>, key: string, since: int, l: Lookup, at: int)
    requires forall u :: u >= since ==> tenants(key, u).Some? && !tenants(key, u).value.isActive
    requires l.started <= l.read <= l.kept <= at <= l.kept + 300_000_000_000
    requires at >= since + 300_000_000_000 + (l.kept - l.started)
    ensures ResponseTo(tenants(key, l.read)) == Inactive
  {
    assert l.read >= since;
  }
}
