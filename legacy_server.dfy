/** The legacy single-file server's last-4-digits lookup: its own cache, a build
    that neither deduplicates phones nor customers, the start-up and periodic
    forced rebuilds, and the three-tier handler of `GET /api/customers/search-last4`
    (index, GraphQL with 50 results, live scan of at most 8 pages). */
module LegacyServer {
  import opened Common
  import opened Text
  import opened Customers
  import opened Last4Index
  import opened ShopifyPagination
  import opened ShopifySearch
  import CustomersController

  /** Ten minutes. */
  const TTL_MS: int := 600000

  /** The page ceiling of the enumeration behind a rebuild (100 pages of 250). */
  const INDEX_MAX_PAGES: int := 100

  /** The `first` of the GraphQL tier. */
  const GRAPHQL_FIRST: int := 50

  /** The page ceiling of the live-scan tier. */
  const SCAN_MAX_PAGES: int := 8

  type CacheState = CustomersController.CacheState
  type Reply = CustomersController.Reply

  /** A call that is not forced keeps the current index when it is less than
      `ttlMs` old and not empty; the build time alone is not checked. */
  predicate LegacySkipsRebuild(force: bool, s: CacheState, now: int, ttlMs: int) {
    !force && now - s.lastBuildTs < ttlMs && |s.index| > 0
  }

  /** The outcome of `buildLast4IndexIfNeeded(force)` at `now`: the cache as it
      was when fresh, the non-deduplicating build of a successful enumeration
      stamped `now`, or the enumeration's error, which the build does not catch. */
  function LegacyRefreshed(s: CacheState, force: bool, now: int, ttlMs: int, enumerated: Result<seq<Customer>, Error>)
    : Result<CacheState, Error>
  {
    if LegacySkipsRebuild(force, s, now, ttlMs) then Ok(s)
    else match enumerated
      case Ok(all) => Ok(CustomersController.CacheState(BuildIndex(all, false), now))
      case Err(e) => Err(e)
  }

  /** The cache a refresh leaves behind: a failed one changes nothing. */
  function After(s: CacheState, refreshed: Result<CacheState, Error>): CacheState {
    match refreshed
    case Ok(t) => t
    case Err(_) => s
  }

  /** What the enumeration behind a rebuild answers. */
  function LegacyEnumerated(fetch: Fetch): Result<seq<Customer>, Error> {
    Walk(fetch, NextUrl, Some(FIRST_PAGE_URL), INDEX_MAX_PAGES)
  }

  /** What the live-scan tier answers for `key`. */
  function Scanned(fetch: Fetch, clock: Clock, key: string): Result<seq<Customer>, Error> {
    Scan(fetch, NextUrl, clock, key, Some(FIRST_PAGE_URL), 0, SCAN_MAX_PAGES)
  }

  /** The reply to a lookup of a valid `key` once the cache is refreshed: a
      non-empty bucket, else a non-empty GraphQL answer, else whatever the live
      scan found (possibly nothing); an error in a tier that runs is a 500. */
  function LegacyLookup(idx: Index, key: string, gql: GqlEndpoint, scanned: Result<seq<Customer>, Error>): Reply {
    var fromIndex := Bucket(idx, key);
    if fromIndex != [] then CustomersController.Customers(fromIndex)
    else match SearchByLast4GraphQL(key, GRAPHQL_FIRST, gql)
      case Err(e) => CustomersController.ServerError(Some(e))
      case Ok(found) =>
        if found != [] then CustomersController.Customers(found)
        else match scanned
          case Ok(cs) => CustomersController.Customers(cs)
          case Err(e) => CustomersController.ServerError(Some(e))
  }

  /** The whole reply of the handler to a valid `key`: a failed refresh is a 500. */
  function LegacyReply(refreshed: Result<CacheState, Error>, key: string, gql: GqlEndpoint, scanned: Result<seq<Customer>, Error>)
    : Reply
  {
    match refreshed
    case Err(e) => CustomersController.ServerError(Some(e))
    case Ok(t) => LegacyLookup(t.index, key, gql, scanned)
  }

  // ---------------------------------------------------------------------------
  // The cache.

  class LegacyCache {
    var index: Index
    var lastBuildTs: int
    var ttlMs: int

    /** The cache keeps a sound index and its ten-minute time to live. */
    ghost predicate Valid()
      reads this
    {
      Sound(index) && ttlMs == TTL_MS
    }

    function State(): CacheState
      reads this
    {
      CustomersController.CacheState(index, lastBuildTs)
    }

    /** The cache at start-up: empty and never built. */
    constructor()
      ensures Valid()
      ensures index == map[] && lastBuildTs == 0
    {
      index := map[];
      lastBuildTs := 0;
      ttlMs := TTL_MS;
    }

    /** `buildLast4IndexIfNeeded(force)`, with the clock read as `now`; `failure`
        is the error the call rejects with. */
    method BuildLast4IndexIfNeeded(force: bool, now: int, fetch: Fetch) returns (failure: Option<Error>)
      requires Valid()
      modifies this
      ensures Valid()
      ensures var r := LegacyRefreshed(old(State()), force, now, ttlMs, LegacyEnumerated(fetch));
        State() == After(old(State()), r) && (failure.Some? <==> r.Err?)
        && (r.Err? ==> failure == Some(r.error))
    {
      if !force && now - lastBuildTs < ttlMs && |index| > 0 {
        return None;
      }
      var all, _ := GetAllCustomersPaginated(fetch, NextUrl, INDEX_MAX_PAGES);
      if all.Err? {
        return Some(all.error);
      }
      var map_ := Build(all.value, false);
      BuildIndexSound(all.value, false);
      index := map_;
      lastBuildTs := now;
      return None;
    }

    /** The forced rebuild run at start-up and then every fifteen minutes (the
        timer is not modelled): its error is logged and dropped. */
    method ScheduledRebuild(now: int, fetch: Fetch)
      requires Valid()
      modifies this
      ensures Valid()
      ensures State() == After(old(State()), LegacyRefreshed(old(State()), true, now, ttlMs, LegacyEnumerated(fetch)))
    {
      var _ := BuildLast4IndexIfNeeded(true, now, fetch);
    }

    /** The handler of `GET /api/customers/search-last4` for the query parameter
        `query` ("" when absent); the scan's clock starts after the first two tiers. */
    method SearchLast4(query: string, now: int, fetch: Fetch, gql: GqlEndpoint, clock: Clock) returns (reply: Reply)
      requires Valid()
      modifies this
      ensures Valid()
      ensures !IsFourDigits(Trim(query)) ==> reply == CustomersController.BadRequest && State() == old(State())
      ensures IsFourDigits(Trim(query)) ==>
        var r := LegacyRefreshed(old(State()), false, now, ttlMs, LegacyEnumerated(fetch));
        State() == After(old(State()), r)
        && reply == LegacyReply(r, Trim(query), gql, Scanned(fetch, clock, Trim(query)))
    {
      var last4 := Trim(query);
      if !IsFourDigits(last4) {
        return CustomersController.BadRequest;
      }
      var failure := BuildLast4IndexIfNeeded(false, now, fetch);
      if failure.Some? {
        return CustomersController.ServerError(failure);
      }
      var fromIndex := if last4 in index then index[last4] else [];
      if |fromIndex| > 0 {
        return CustomersController.Customers(fromIndex);
      }
      var gqlMatches := SearchByLast4GraphQL(last4, GRAPHQL_FIRST, gql);
      if gqlMatches.Err? {
        return CustomersController.ServerError(Some(gqlMatches.error));
      }
      if |gqlMatches.value| > 0 {
        return CustomersController.Customers(gqlMatches.value);
      }
      var customers, _ := GetCustomersByLast4(last4, SCAN_MAX_PAGES, fetch, NextUrl, clock);
      if customers.Err? {
        return CustomersController.ServerError(Some(customers.error));
      }
      return CustomersController.Customers(customers.value);
    }
  }

  // ---------------------------------------------------------------------------
  // Properties.

  /** An empty index is never fresh: until a build has bucketed at least one
      phone, every call rebuilds, whatever the build time says. */
  lemma EmptyIndexAlwaysRebuilds(s: CacheState, force: bool, now: int, ttlMs: int, enumerated: Result<seq<Customer>, Error>)
    requires |s.index| == 0
    ensures LegacyRefreshed(s, force, now, ttlMs, enumerated)
      == (match enumerated
          case Ok(all) => Ok(CustomersController.CacheState(BuildIndex(all, false), now))
          case Err(e) => Err(e))
  {
  }

  /** A refresh either keeps both fields or replaces both at once, and keeps the
      index sound. */
  lemma LegacyRefreshedSound(s: CacheState, force: bool, now: int, ttlMs: int, enumerated: Result<seq<Customer>, Error>)
    requires Sound(s.index)
    ensures var t := After(s, LegacyRefreshed(s, force, now, ttlMs, enumerated));
      Sound(t.index)
      && (t == s || (enumerated.Ok? && t == CustomersController.CacheState(BuildIndex(enumerated.value, false), now)))
  {
    if enumerated.Ok? {
      BuildIndexSound(enumerated.value, false);
    }
  }

  /** Every customer the handler answers has a phone whose digits end with the
      key, whichever of the three tiers answered, and the scan tier answers at
      most one customer. */
  lemma LegacyLookupSound(idx: Index, key: string, gql: GqlEndpoint, fetch: Fetch, clock: Clock)
    requires Sound(idx) && IsFourDigits(key)
    ensures var reply := LegacyLookup(idx, key, gql, Scanned(fetch, clock, key));
      reply.Customers? ==> forall c :: c in reply.customers ==> MatchesLast4(c, key)
    ensures Bucket(idx, key) == [] && SearchByLast4GraphQL(key, GRAPHQL_FIRST, gql) == Ok([])
      ==> var reply := LegacyLookup(idx, key, gql, Scanned(fetch, clock, key));
        reply.Customers? ==> |reply.customers| <= 1
  {
    if Bucket(idx, key) == [] {
      var g := SearchByLast4GraphQL(key, GRAPHQL_FIRST, gql);
      if g.Ok? {
        GraphQLResultExact(key, GRAPHQL_FIRST, gql);
        if g.value == [] {
          ScanResultMatches(fetch, NextUrl, clock, key, Some(FIRST_PAGE_URL), 0, SCAN_MAX_PAGES);
        }
      }
    }
  }

  /** The legacy build and the deduplicating build agree on the keys and on which
      customer ids each bucket lists; they differ only in repetitions. */
  lemma LegacyAndDedupAgree(cs: seq<Customer>, k: string, id: string)
    ensures k in BuildIndex(cs, false) <==> k in BuildIndex(cs, true)
    ensures HasId(Bucket(BuildIndex(cs, false), k), id) <==> HasId(Bucket(BuildIndex(cs, true), k), id)
  {
    if HasId(Bucket(BuildIndex(cs, false), k), id) {
      SameIdsOneWay(cs, k, id, false);
    }
    if HasId(Bucket(BuildIndex(cs, true), k), id) {
      SameIdsOneWay(cs, k, id, true);
    }
    BuildIndexBuckets(cs, false, k);
    BuildIndexBuckets(cs, true, k);
    if k in BuildIndex(cs, false) {
      var c := ExpectedBucket(cs, k, false)[0];
      assert HasId(Bucket(BuildIndex(cs, false), k), c.id);
      SameIdsOneWay(cs, k, c.id, false);
    }
    if k in BuildIndex(cs, true) {
      var c := ExpectedBucket(cs, k, true)[0];
      assert HasId(Bucket(BuildIndex(cs, true), k), c.id);
      SameIdsOneWay(cs, k, c.id, true);
    }
  }

  /** An id listed under `k` by one build is listed under `k` by the other. */
  lemma SameIdsOneWay(cs: seq<Customer>, k: string, id: string, dedup: bool)
    requires HasId(Bucket(BuildIndex(cs, dedup), k), id)
    ensures HasId(Bucket(BuildIndex(cs, !dedup), k), id)
  {
    BuildIndexBuckets(cs, dedup, k);
    BuildIndexBuckets(cs, !dedup, k);
    var b := ExpectedBucket(cs, k, dedup);
    var i :| 0 <= i < |b| && b[i].id == id;
    ExpectedBucketSound(cs, k, dedup);
    assert b[i] in b;
    ExpectedBucketComplete(cs, k, !dedup, b[i]);
  }

  // ---------------------------------------------------------------------------
  // The duplicate listing of the legacy build.

  /** A customer whose two phones are written differently but end with the same
      four digits: a mobile number in national and in international form. */
  function TwoFormsCustomer(): Customer {
    Customers.Customer("1", "", "", "", "0612345678", "+" + "33612345678")
  }

  /** The key of a digit string is its last four characters. */
  lemma DigitStringKey(a: string)
    requires AllDigits(a) && |a| >= 4
    ensures PhoneKey(a) == Some(a[|a| - 4..])
  {
    DigitsOfDigits(a);
  }

  /** A leading `+` does not change the key. */
  lemma PlusKey(b: string)
    requires AllDigits(b) && |b| >= 4
    ensures PhoneKey(['+'] + b) == Some(b[|b| - 4..])
  {
    DigitsAppend(['+'], b);
    DigitsOfDigits(b);
    assert Digits(['+']) == [];
  }

  /** The primary phone of the customer has the key "5678". */
  lemma NationalKey()
    ensures PhoneKey(TwoFormsCustomer().phone) == Some("5678")
  {
    var national: string := "0612345678";
    assert AllDigits(national) by {
      assert forall i :: 0 <= i < |national| ==> IsDigit(national[i]);
    }
    DigitStringKey(national);
    assert TwoFormsCustomer().phone == national;
    assert national[|national| - 4..] == "5678";
  }

  /** The address phone of the customer has the key "5678". */
  lemma InternationalKey()
    ensures PhoneKey(TwoFormsCustomer().addressPhone) == Some("5678")
  {
    var international: string := "33612345678";
    assert AllDigits(international) by {
      assert forall i :: 0 <= i < |international| ==> IsDigit(international[i]);
    }
    PlusKey(international);
    assert "+" == ['+'];
    assert TwoFormsCustomer().addressPhone == ['+'] + international;
    assert international[|international| - 4..] == "5678";
  }

  /** The legacy build lists the customer twice under "5678" (the deduplicating
      build lists it once), so the handler's first tier answers the same
      customer twice. */
  lemma LegacyListsTwice()
    ensures Bucket(BuildIndex([TwoFormsCustomer()], false), "5678") == [TwoFormsCustomer(), TwoFormsCustomer()]
    ensures Bucket(BuildIndex([TwoFormsCustomer()], true), "5678") == [TwoFormsCustomer()]
    ensures !UniqueIds(Bucket(BuildIndex([TwoFormsCustomer()], false), "5678"))
  {
    var c := TwoFormsCustomer();
    NationalKey();
    InternationalKey();
    SharedSuffixListing(c, "5678");
    var b := Bucket(BuildIndex([c], false), "5678");
    assert b[0].id == b[1].id;
  }
}
