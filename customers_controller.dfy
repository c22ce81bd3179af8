/** The current server's customer controller: the process-wide last-4-digits
    cache (`last4Cache`), its rebuild (`buildLast4IndexIfNeeded`), the two-tier
    lookup behind `GET /customers/search-last4` (`searchByLast4`) and the cache
    invalidation done by `createCustomer` and `updateCustomer`. */
module CustomersController {
  import opened Common
  import opened Text
  import opened Customers
  import opened Last4Index
  import opened ShopifyPagination
  import opened ShopifySearch

  /** Ten minutes. */
  const TTL_MS: int := 600000

  /** The page ceiling of the enumeration behind a rebuild (20 pages of 250). */
  const INDEX_MAX_PAGES: int := 20

  /** The `first` the GraphQL fallback runs with (the service's default). */
  const GRAPHQL_FIRST: int := 50

  /** The two fields a rebuild replaces. */
  datatype CacheState = CacheState(index: Index, lastBuildTs: int)

  /** The answers of the handlers: a customer list (200), a created (201) or
      updated (200) customer, a rejected input (400), or an error (500). */
  datatype Reply =
    | Customers(customers: seq<Customer>)
    | Created(customer: Customer)
    | Updated(customer: Customer)
    | BadRequest
    | ServerError(error: Option<Error>)

  /** A call that is not forced keeps the current index when it has been built
      (`lastBuildTs > 0`) less than `ttlMs` ago. */
  predicate SkipsRebuild(force: bool, lastBuildTs: int, now: int, ttlMs: int) {
    !force && lastBuildTs > 0 && now - lastBuildTs < ttlMs
  }

  /** The cache after `buildLast4IndexIfNeeded(force)` at time `now`, given what
      the enumeration answers: kept when fresh, replaced as a whole by the
      deduplicating build stamped `now` when the enumeration succeeds, and kept
      when it fails (the error is logged and swallowed). */
  function Refreshed(s: CacheState, force: bool, now: int, ttlMs: int, enumerated: Result<seq<Customer>, Error>)
    : CacheState
  {
    if SkipsRebuild(force, s.lastBuildTs, now, ttlMs) then s
    else match enumerated
      case Ok(all) => CacheState(BuildIndex(all, true), now)
      case Err(_) => s
  }

  /** The reply to a lookup of a valid `key` once the cache is refreshed: the
      bucket when it is non-empty, otherwise the GraphQL search (an error there
      becomes a 500). */
  function Lookup(idx: Index, key: string, gql: GqlEndpoint): Reply {
    var fromIndex := Bucket(idx, key);
    if fromIndex != [] then Customers(fromIndex)
    else match SearchByLast4GraphQL(key, GRAPHQL_FIRST, gql)
      case Ok(found) => Customers(found)
      case Err(e) => ServerError(Some(e))
  }

  /** What the enumeration behind a rebuild answers. */
  function Enumerated(fetch: Fetch): Result<seq<Customer>, Error> {
    Walk(fetch, NextUrl, Some(FIRST_PAGE_URL), INDEX_MAX_PAGES)
  }

  // ---------------------------------------------------------------------------
  // The cache.

  class Last4Cache {
    var index: Index
    var lastBuildTs: int
    var ttlMs: int

    /** The cache keeps a sound index (every key four digits, every listed
        customer matching its key) and its ten-minute time to live. */
    ghost predicate Valid()
      reads this
    {
      Sound(index) && ttlMs == TTL_MS
    }

    function State(): CacheState
      reads this
    {
      CacheState(index, lastBuildTs)
    }

    /** The cache at start-up: empty and never built. */
    constructor()
      ensures Valid()
      ensures index == map[] && lastBuildTs == 0
    {
      index := map[];
      lastBuildTs := 0;
      ttlMs := TTL_MS;
    }

    /** `buildLast4IndexIfNeeded(force)`, with the clock read as `now`. The
        start-up call (`setTimeout(..., 1000)`) is this with `force` set. */
    method BuildLast4IndexIfNeeded(force: bool, now: int, fetch: Fetch)
      requires Valid()
      modifies this
      ensures Valid()
      ensures State() == Refreshed(old(State()), force, now, ttlMs, Enumerated(fetch))
    {
      if !force && lastBuildTs > 0 && now - lastBuildTs < ttlMs {
        return;
      }
      var allCustomers, _ := GetAllCustomersPaginated(fetch, NextUrl, INDEX_MAX_PAGES);
      if allCustomers.Err? {
        // the failure is logged; the cache stays as it was
        return;
      }
      var newIndex := Build(allCustomers.value, true);
      BuildIndexSound(allCustomers.value, true);
      index := newIndex;
      lastBuildTs := now;
    }

    /** `searchByLast4` for the query parameter `query` ("" when absent). */
    method SearchByLast4(query: string, now: int, fetch: Fetch, gql: GqlEndpoint) returns (reply: Reply)
      requires Valid()
      modifies this
      ensures Valid()
      ensures !IsFourDigits(Trim(query)) ==> reply == BadRequest && State() == old(State())
      ensures IsFourDigits(Trim(query)) ==>
        State() == Refreshed(old(State()), false, now, ttlMs, Enumerated(fetch))
        && reply == Lookup(index, Trim(query), gql)
    {
      var last4 := Trim(query);
      if !IsFourDigits(last4) {
        return BadRequest;
      }
      BuildLast4IndexIfNeeded(false, now, fetch);
      var results := if last4 in index then index[last4] else [];
      if |results| == 0 {
        var fallback := SearchByLast4GraphQL(last4, GRAPHQL_FIRST, gql);
        if fallback.Err? {
          return ServerError(Some(fallback.error));
        }
        results := fallback.value;
      }
      return Customers(results);
    }

    /** `createCustomer`, given what the platform answered (`None` when the
        creation threw): a success invalidates the cache. */
    method CreateCustomer(created: Option<Customer>) returns (reply: Reply)
      requires Valid()
      modifies this
      ensures Valid() && index == old(index)
      ensures created.Some? ==> lastBuildTs == 0 && reply == Created(created.value)
      ensures created.None? ==> lastBuildTs == old(lastBuildTs) && reply == ServerError(None)
    {
      if created.None? {
        return ServerError(None);
      }
      lastBuildTs := 0;
      return Created(created.value);
    }

    /** `updateCustomer`, given what the platform answered (`None` when the
        update threw): a success invalidates the cache. */
    method UpdateCustomer(updated: Option<Customer>) returns (reply: Reply)
      requires Valid()
      modifies this
      ensures Valid() && index == old(index)
      ensures updated.Some? ==> lastBuildTs == 0 && reply == Updated(updated.value)
      ensures updated.None? ==> lastBuildTs == old(lastBuildTs) && reply == ServerError(None)
    {
      if updated.None? {
        return ServerError(None);
      }
      lastBuildTs := 0;
      return Updated(updated.value);
    }
  }

  // ---------------------------------------------------------------------------
  // Properties.

  /** A refresh either leaves both fields alone or replaces both at once with the
      build of a complete enumeration stamped `now`; it rebuilds exactly when the
      call is forced or the cache is not fresh, and the enumeration succeeds. */
  lemma RefreshedIsAtomic(s: CacheState, force: bool, now: int, ttlMs: int, enumerated: Result<seq<Customer>, Error>)
    ensures var r := Refreshed(s, force, now, ttlMs, enumerated);
      r == s || (enumerated.Ok? && r == CacheState(BuildIndex(enumerated.value, true), now))
    ensures var r := Refreshed(s, force, now, ttlMs, enumerated);
      (!SkipsRebuild(force, s.lastBuildTs, now, ttlMs) && enumerated.Ok?)
      ==> r == CacheState(BuildIndex(enumerated.value, true), now)
    ensures SkipsRebuild(force, s.lastBuildTs, now, ttlMs) || enumerated.Err?
      ==> Refreshed(s, force, now, ttlMs, enumerated) == s
  {
  }

  /** A refresh keeps the index sound, and after it every bucket lists each
      customer id at most once. */
  lemma RefreshedSound(s: CacheState, force: bool, now: int, ttlMs: int, enumerated: Result<seq<Customer>, Error>)
    requires Sound(s.index)
    requires forall k :: k in s.index ==> UniqueIds(s.index[k])
    ensures Sound(Refreshed(s, force, now, ttlMs, enumerated).index)
    ensures var idx := Refreshed(s, force, now, ttlMs, enumerated).index;
      forall k :: k in idx ==> UniqueIds(idx[k])
  {
    if !SkipsRebuild(force, s.lastBuildTs, now, ttlMs) && enumerated.Ok? {
      BuildIndexSound(enumerated.value, true);
      forall k | k in BuildIndex(enumerated.value, true)
        ensures UniqueIds(BuildIndex(enumerated.value, true)[k])
      {
        BuildIndexUniqueIds(enumerated.value, k);
      }
    }
  }

  /** After `createCustomer` or `updateCustomer` reset `lastBuildTs` to 0, the
      next lookup rebuilds whatever the clock says, and so does a forced call. */
  lemma InvalidatedRebuilds(idx: Index, force: bool, now: int, ttlMs: int, all: seq<Customer>)
    ensures Refreshed(CacheState(idx, 0), force, now, ttlMs, Ok(all)) == CacheState(BuildIndex(all, true), now)
    ensures Refreshed(CacheState(idx, now), true, now, ttlMs, Ok(all)) == CacheState(BuildIndex(all, true), now)
  {
  }

  /** Every customer a lookup answers has a phone whose digits end with the key,
      whichever tier answered. */
  lemma LookupSound(idx: Index, key: string, gql: GqlEndpoint)
    requires Sound(idx) && IsFourDigits(key)
    ensures Lookup(idx, key, gql).Customers? ==>
      forall c :: c in Lookup(idx, key, gql).customers ==> MatchesLast4(c, key)
  {
    if Bucket(idx, key) == [] && SearchByLast4GraphQL(key, GRAPHQL_FIRST, gql).Ok? {
      GraphQLResultExact(key, GRAPHQL_FIRST, gql);
    }
  }

  /** The tiers run in order: a non-empty bucket is answered without the GraphQL
      search, and an empty one is answered by it, error or not. */
  lemma LookupTiers(idx: Index, key: string, gql: GqlEndpoint)
    requires IsFourDigits(key)
    ensures Bucket(idx, key) != [] ==> Lookup(idx, key, gql) == Customers(Bucket(idx, key))
    ensures Bucket(idx, key) == [] ==>
      (Lookup(idx, key, gql).Customers? <==> gql(PhoneQuery(key), GRAPHQL_FIRST).ok)
  {
  }
}
