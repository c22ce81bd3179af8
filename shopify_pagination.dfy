/** The REST side of the customer service: following `Link: <...>; rel="next"`
    headers through `customers.json`, either to enumerate every customer under a
    page ceiling (`getAllCustomersPaginated`) or to scan for the first customer
    whose phone ends with four given digits under a page ceiling and a time budget
    (`getCustomersByLast4`). */
module ShopifyPagination {
  import opened Common
  import opened Text
  import opened Customers

  /** The errors the service throws. */
  datatype Error =
    | InvalidLast4                    // 'Paramètre last4 invalide'
    | HttpError(status: int)          // a non-OK `customers.json` response
    | GraphQLError(status: int)       // a non-OK GraphQL response
    | MissingCustomerId               // 'customerId requis'
    | MissingTag                      // 'tag requis'
    | CustomerReadError(status: int)  // reading the customer before tagging failed
    | TagsUpdateError(status: int)    // writing the merged tags failed

  /** One response of `GET customers.json`: whether it is OK, its status, its
      `data.customers || []`, and its `Link` header ("" when there is none). */
  datatype Page = Page(ok: bool, status: int, customers: seq<Customer>, link: string)

  /** The REST endpoint: what `fetch(url)` answers for each URL. */
  type Fetch = string -> Page

  /** How the loops read the next-page URL off a `Link` header; the service uses
      `NextUrl`. The walk and the scan are stated for any such reader, so that
      their proofs do not depend on the header grammar. */
  type LinkReader = string -> Option<string>

  /** The clock: reading 0 is taken before the first page, reading k right after
      page k has been examined. */
  type Clock = nat -> int

  /** The first page both loops request (with the configuration defaults for the
      shop domain and the API version). */
  const FIRST_PAGE_URL: string :=
    "https://votre-boutique.myshopify.com/admin/api/2023-10/customers.json?limit=250&fields=id,first_name,last_name,email,phone,created_at,updated_at,default_address"

  const REL_NEXT: string := "rel=\"next\""

  /** Elapsed time after which the live scan stops paginating. */
  const SCAN_TIME_BUDGET_MS: int := 3000

  // ---------------------------------------------------------------------------
  // The `Link` header.

  /** Position of the first `c` in `s`. */
  function IndexOf(s: string, c: char): (r: Option<nat>)
    ensures r.Some? ==> r.value < |s| && s[r.value] == c && c !in s[..r.value]
    ensures r.None? ==> c !in s
  {
    if s == [] then None
    else if s[0] == c then Some(0)
    else match IndexOf(s[1..], c)
      case None => None
      case Some(i) =>
        assert s[..i + 1] == [s[0]] + s[1..][..i];
        Some(i + 1)
  }

  /** `s.match(/<([^>]+)>/)`, then `m ? m[1] : null`: the text between the leftmost
      `<` that is followed by at least one character other than `>` and the first
      `>` after it. */
  function AngleCapture(s: string): (r: Option<string>)
    ensures r.Some? ==> r.value != [] && '>' !in r.value
    decreases |s|
  {
    if s == [] then None
    else
      var close := IndexOf(s[1..], '>');
      if s[0] == '<' && close.Some? && close.value > 0 then Some(s[1..1 + close.value])
      else AngleCapture(s[1..])
  }

  /** What is captured appears between `<` and `>` in the input. */
  lemma {:induction false} AngleCaptureFound(s: string)
    ensures AngleCapture(s).Some? ==> Contains(s, "<" + AngleCapture(s).value + ">")
    decreases |s|
  {
    if s != [] {
      var close := IndexOf(s[1..], '>');
      if s[0] == '<' && close.Some? && close.value > 0 {
        var u := s[1..1 + close.value];
        assert s[..|u| + 2] == "<" + u + ">";
      } else {
        AngleCaptureFound(s[1..]);
      }
    }
  }

  /** The first part that contains `needle`, if any. */
  function FirstPartWith(parts: seq<string>, needle: string): Option<string>
  {
    if parts == [] then None
    else if Contains(parts[0], needle) then Some(parts[0])
    else FirstPartWith(parts[1..], needle)
  }

  /** The part found is the first one mentioning `needle`; none is found when no
      part mentions it. */
  lemma {:induction false} FirstPartWithIsFirst(parts: seq<string>, needle: string)
    ensures var r := FirstPartWith(parts, needle);
      r.Some? ==> exists i :: (0 <= i < |parts| && parts[i] == r.value && Contains(parts[i], needle)
        && forall j :: 0 <= j < i ==> !Contains(parts[j], needle))
    ensures (forall j :: 0 <= j < |parts| ==> !Contains(parts[j], needle)) <==> FirstPartWith(parts, needle).None?
  {
    if parts != [] && !Contains(parts[0], needle) {
      FirstPartWithIsFirst(parts[1..], needle);
      var r := FirstPartWith(parts[1..], needle);
      if r.Some? {
        var i :| 0 <= i < |parts[1..]| && parts[1..][i] == r.value && Contains(parts[1..][i], needle)
          && forall j :: 0 <= j < i ==> !Contains(parts[1..][j], needle);
        assert parts[i + 1] == r.value && forall j :: 0 <= j < i + 1 ==> !Contains(parts[j], needle);
      } else {
        assert forall j :: 1 <= j < |parts| ==> parts[j] == parts[1..][j - 1];
      }
    }
  }

  /** The next-page URL of a `Link` header: the `<...>` text of the first
      comma-separated part that mentions `rel="next"`; `None` (the loops' `null`)
      when there is no header, no such part, or no `<...>` in it. */
  function NextUrl(link: string): (r: Option<string>)
    ensures r.Some? ==> r.value != [] && '>' !in r.value
  {
    if link == [] then None
    else match FirstPartWith(Split(link, ','), REL_NEXT)
      case None => None
      case Some(part) => AngleCapture(part)
  }

  /** A next-page URL comes from the first part of the header that mentions
      `rel="next"`, where it stands between `<` and `>`; a header without such a
      part has no next page. */
  lemma NextUrlSource(link: string)
    ensures NextUrl(link).Some? ==> exists i :: (0 <= i < |Split(link, ',')| && Contains(Split(link, ',')[i], REL_NEXT)
      && Contains(Split(link, ',')[i], "<" + NextUrl(link).value + ">")
      && forall j :: 0 <= j < i ==> !Contains(Split(link, ',')[j], REL_NEXT))
    ensures (forall j :: 0 <= j < |Split(link, ',')| ==> !Contains(Split(link, ',')[j], REL_NEXT)) ==> NextUrl(link).None?
  {
    if link != [] {
      var found := FirstPartWith(Split(link, ','), REL_NEXT);
      var parts := Split(link, ',');
      FirstPartWithIsFirst(parts, REL_NEXT);
      if found.Some? {
        AngleCaptureFound(found.value);
        if NextUrl(link).Some? {
        var i :| 0 <= i < |parts| && parts[i] == found.value && Contains(parts[i], REL_NEXT)
          && forall j :: 0 <= j < i ==> !Contains(parts[j], REL_NEXT);
        assert NextUrl(link) == AngleCapture(found.value);
        assert Contains(parts[i], "<" + NextUrl(link).value + ">");
        assert 0 <= i < |parts| && Contains(parts[i], REL_NEXT)
          && Contains(parts[i], "<" + NextUrl(link).value + ">")
          && forall j :: 0 <= j < i ==> !Contains(parts[j], REL_NEXT);
        }
      }
    }
  }

  lemma {:induction false} IndexOfFirst(u: string, c: char, rest: string)
    requires c !in u
    ensures IndexOf(u + [c] + rest, c) == Some(|u|)
  {
    if u != [] {
      assert (u + [c] + rest)[1..] == u[1..] + [c] + rest;
      IndexOfFirst(u[1..], c, rest);
    }
  }

  lemma {:induction false} AngleCaptureSkips(lead: string, s: string)
    requires '<' !in lead
    ensures AngleCapture(lead + s) == AngleCapture(s)
  {
    if lead != [] {
      assert (lead + s)[1..] == lead[1..] + s;
      AngleCaptureSkips(lead[1..], s);
    } else {
      assert lead + s == s;
    }
  }

  /** The capture of `<u>` is `u`, whatever comes before (without a `<`) or after. */
  lemma AngleCaptureOf(lead: string, u: string, rest: string)
    requires '<' !in lead && u != [] && '>' !in u
    ensures AngleCapture(lead + "<" + u + ">" + rest) == Some(u)
  {
    var s := "<" + u + ">" + rest;
    assert lead + "<" + u + ">" + rest == lead + s;
    AngleCaptureSkips(lead, s);
    assert s[1..] == u + ['>'] + rest;
    IndexOfFirst(u, '>', rest);
    assert s[1..1 + |u|] == u;
  }

  /** Round trip for the header the platform sends on a page with a successor:
      `<url>; rel="next"` (any text without `<` or `,` before it, any text
      without `,` between `>` and `rel`) yields `url`. */
  lemma NextUrlOfNextPart(lead: string, url: string, mid: string)
    requires url != [] && '>' !in url && ',' !in url
    requires '<' !in lead && ',' !in lead && ',' !in mid
    ensures NextUrl(lead + "<" + url + ">" + mid + REL_NEXT) == Some(url)
  {
    var part := lead + "<" + url + ">" + mid + REL_NEXT;
    assert ',' !in part;
    SplitNoSeparator(part, ',');
    assert part == (lead + "<" + url + ">" + mid) + REL_NEXT;
    ContainsSuffix(lead + "<" + url + ">" + mid, REL_NEXT);
    AngleCaptureOf(lead, url, mid + REL_NEXT);
    assert lead + "<" + url + ">" + (mid + REL_NEXT) == part;
  }

  /** A part that does not mention `rel="next"` (such as the `rel="previous"` part)
      is skipped: the answer is that of the rest of the header. */
  lemma NextUrlSkipsPart(part: string, rest: string)
    requires ',' !in part && !Contains(part, REL_NEXT) && rest != []
    ensures NextUrl(part + "," + rest) == NextUrl(rest)
  {
    SplitAtSeparator(part, ',', rest);
    assert part + "," + rest == part + [','] + rest;
    var parts := Split(part + "," + rest, ',');
    assert parts[1..] == Split(rest, ',');
  }

  // ---------------------------------------------------------------------------
  // getAllCustomersPaginated.

  /** `xs` followed by the customers of a successful result. */
  function Prepend(xs: seq<Customer>, r: Result<seq<Customer>, Error>): Result<seq<Customer>, Error> {
    match r
    case Ok(ys) => Ok(xs + ys)
    case Err(e) => Err(e)
  }

  /** What following `rel="next"` links from `url` yields with at most `budget`
      more requests: the customers of every page in order, or the error of the
      first failing page. */
  function Walk(fetch: Fetch, next: LinkReader, url: Option<string>, budget: int): Result<seq<Customer>, Error>
    decreases budget
  {
    if url.None? || budget <= 0 then Ok([])
    else
      var page := fetch(url.value);
      if !page.ok then Err(HttpError(page.status))
      else Prepend(page.customers, Walk(fetch, next, next(page.link), budget - 1))
  }

  /** The URLs `Walk` requests, in order. */
  function WalkRequests(fetch: Fetch, next: LinkReader, url: Option<string>, budget: int): seq<string>
    decreases budget
  {
    if url.None? || budget <= 0 then []
    else
      var page := fetch(url.value);
      [url.value] + (if !page.ok then [] else WalkRequests(fetch, next, next(page.link), budget - 1))
  }

  lemma PrependEmpty(r: Result<seq<Customer>, Error>)
    ensures Prepend([], r) == r
  {
    if r.Ok? {
      assert [] + r.value == r.value;
    }
  }

  lemma PrependTwice(xs: seq<Customer>, ys: seq<Customer>, r: Result<seq<Customer>, Error>)
    ensures Prepend(xs, Prepend(ys, r)) == Prepend(xs + ys, r)
  {
    if r.Ok? {
      assert xs + (ys + r.value) == (xs + ys) + r.value;
    }
  }

  /** The concatenated customers of the pages at `urls`. */
  function PagesCustomers(fetch: Fetch, urls: seq<string>): seq<Customer> {
    if urls == [] then [] else fetch(urls[0]).customers + PagesCustomers(fetch, urls[1..])
  }

  /** The walk stops without a request once there is no next page or the page
      ceiling is reached. */
  lemma WalkEnds(fetch: Fetch, next: LinkReader, url: Option<string>, budget: int)
    requires url.None? || budget <= 0
    ensures Walk(fetch, next, url, budget) == Ok([])
    ensures WalkRequests(fetch, next, url, budget) == []
  {
  }

  /** A page that is not OK ends the walk with its status. */
  lemma WalkFails(fetch: Fetch, next: LinkReader, url: string, budget: int)
    requires budget > 0 && !fetch(url).ok
    ensures Walk(fetch, next, Some(url), budget) == Err(HttpError(fetch(url).status))
    ensures WalkRequests(fetch, next, Some(url), budget) == [url]
  {
    assert [url] + [] == [url];
  }

  /** An OK page contributes its customers ahead of the rest of the walk. */
  lemma WalkContinues(fetch: Fetch, next: LinkReader, url: string, budget: int)
    requires budget > 0 && fetch(url).ok
    ensures Walk(fetch, next, Some(url), budget)
      == Prepend(fetch(url).customers, Walk(fetch, next, next(fetch(url).link), budget - 1))
    ensures WalkRequests(fetch, next, Some(url), budget)
      == [url] + WalkRequests(fetch, next, next(fetch(url).link), budget - 1)
  {
  }

  /** One OK page moves its customers and its URL from what is left of the walk
      to what has been collected. */
  lemma WalkStep(fetch: Fetch, next: LinkReader, url: string, budget: int, all: seq<Customer>, requested: seq<string>)
    requires budget > 0 && fetch(url).ok
    ensures Prepend(all, Walk(fetch, next, Some(url), budget))
      == Prepend(all + fetch(url).customers, Walk(fetch, next, next(fetch(url).link), budget - 1))
    ensures requested + WalkRequests(fetch, next, Some(url), budget)
      == (requested + [url]) + WalkRequests(fetch, next, next(fetch(url).link), budget - 1)
  {
    var rest := Walk(fetch, next, next(fetch(url).link), budget - 1);
    WalkContinues(fetch, next, url, budget);
    PrependTwice(all, fetch(url).customers, rest);
    var restRequests := WalkRequests(fetch, next, next(fetch(url).link), budget - 1);
    assert requested + ([url] + restRequests) == (requested + [url]) + restRequests;
  }

  /** Appends every customer of a page to the collected ones. */
  method PushAll(all: seq<Customer>, customers: seq<Customer>) returns (r: seq<Customer>)
    ensures r == all + customers
  {
    r := all;
    for i := 0 to |customers|
      invariant r == all + customers[..i]
    {
      r := r + [customers[i]];
    }
    assert customers[..|customers|] == customers;
  }

  /** `getAllCustomersPaginated(maxPages)`. */
  method GetAllCustomersPaginated(fetch: Fetch, next: LinkReader, maxPages: int)
    returns (r: Result<seq<Customer>, Error>, ghost requested: seq<string>)
    ensures r == Walk(fetch, next, Some(FIRST_PAGE_URL), maxPages)
    ensures requested == WalkRequests(fetch, next, Some(FIRST_PAGE_URL), maxPages)
  {
    var pageCount := 0;
    var urlNext: Option<string> := Some(FIRST_PAGE_URL);
    var all: seq<Customer> := [];
    requested := [];
    ghost var outcome := Walk(fetch, next, urlNext, maxPages);
    ghost var allRequests := WalkRequests(fetch, next, urlNext, maxPages);
    PrependEmpty(outcome);
    ghost var left := maxPages;
    while urlNext.Some? && pageCount < maxPages
      invariant 0 <= pageCount && left == maxPages - pageCount
      invariant Prepend(all, Walk(fetch, next, urlNext, left)) == outcome
      invariant requested + WalkRequests(fetch, next, urlNext, left) == allRequests
      decreases left
    {
      var url := urlNext.value;
      ghost var budget := left;
      pageCount := pageCount + 1;
      left := left - 1;
      var resp := fetch(url);
      ghost var before := requested;
      requested := requested + [url];
      if !resp.ok {
        WalkFails(fetch, next, url, budget);
        r := Err(HttpError(resp.status));
        assert r == outcome && requested == allRequests;
        return r, requested;
      }
      WalkStep(fetch, next, url, budget, all, before);
      all := PushAll(all, resp.customers);
      urlNext := next(resp.link);
    }
    WalkEnds(fetch, next, urlNext, left);
    r := Ok(all);
    assert all + [] == all;
    assert requested + [] == requested;
    return r, requested;
  }

  /** At most `budget` pages are requested. */
  lemma {:induction false} WalkRequestsBound(fetch: Fetch, next: LinkReader, url: Option<string>, budget: int)
    ensures |WalkRequests(fetch, next, url, budget)| <= if budget < 0 then 0 else budget
    decreases budget
  {
    if url.Some? && budget > 0 {
      var page := fetch(url.value);
      if page.ok {
        WalkRequestsBound(fetch, next, next(page.link), budget - 1);
        assert WalkRequests(fetch, next, url, budget)
          == [url.value] + WalkRequests(fetch, next, next(page.link), budget - 1);
      }
    }
  }

  /** The requested URLs form the `rel="next"` chain from the first one: each
      request but the last got an OK page whose header names the next request. */
  lemma {:induction false} WalkFollowsLinks(fetch: Fetch, next: LinkReader, url: Option<string>, budget: int)
    ensures var reqs := WalkRequests(fetch, next, url, budget);
      (reqs != [] ==> url == Some(reqs[0]))
      && forall i :: 0 <= i < |reqs| - 1 ==>
           fetch(reqs[i]).ok && next(fetch(reqs[i]).link) == Some(reqs[i + 1])
    decreases budget
  {
    if url.Some? && budget > 0 {
      var page := fetch(url.value);
      if page.ok {
        var nu := next(page.link);
        WalkFollowsLinks(fetch, next, nu, budget - 1);
        var rest := WalkRequests(fetch, next, nu, budget - 1);
        var reqs := WalkRequests(fetch, next, url, budget);
        assert reqs == [url.value] + rest;
        forall i | 0 <= i < |reqs| - 1
          ensures fetch(reqs[i]).ok && next(fetch(reqs[i]).link) == Some(reqs[i + 1])
        {
          if i > 0 {
            assert reqs[i] == rest[i - 1] && reqs[i + 1] == rest[i];
          }
        }
      }
    }
  }

  /** A successful walk is the in-order concatenation of the requested pages, all
      of which were OK; a failed walk reports the status of its last request. */
  lemma {:induction false} WalkIsConcatenation(fetch: Fetch, next: LinkReader, url: Option<string>, budget: int)
    ensures var reqs := WalkRequests(fetch, next, url, budget);
      match Walk(fetch, next, url, budget)
      case Ok(all) =>
        all == PagesCustomers(fetch, reqs) && forall i :: 0 <= i < |reqs| ==> fetch(reqs[i]).ok
      case Err(e) =>
        reqs != [] && !fetch(reqs[|reqs| - 1]).ok && e == HttpError(fetch(reqs[|reqs| - 1]).status)
    decreases budget
  {
    if url.Some? && budget > 0 {
      var page := fetch(url.value);
      if page.ok {
        var nu := next(page.link);
        WalkIsConcatenation(fetch, next, nu, budget - 1);
        var rest := WalkRequests(fetch, next, nu, budget - 1);
        var reqs := WalkRequests(fetch, next, url, budget);
        assert reqs == [url.value] + rest && reqs[1..] == rest;
        if Walk(fetch, next, url, budget).Err? {
          assert reqs[|reqs| - 1] == rest[|rest| - 1];
        }
      }
    }
  }

  // ---------------------------------------------------------------------------
  // getCustomersByLast4.

  /** The first customer of `cs` with a phone ending with `last4`. */
  function FirstMatch(cs: seq<Customer>, last4: string): Option<Customer> {
    if cs == [] then None
    else if MatchesLast4(cs[0], last4) then Some(cs[0])
    else FirstMatch(cs[1..], last4)
  }

  /** `FirstMatch` finds the customer at the first matching position, and finds
      nothing exactly when no customer matches. */
  lemma {:induction false} FirstMatchIsFirst(cs: seq<Customer>, last4: string)
    ensures var r := FirstMatch(cs, last4);
      r.Some? ==> exists i :: (0 <= i < |cs| && cs[i] == r.value && MatchesLast4(cs[i], last4)
        && forall j :: 0 <= j < i ==> !MatchesLast4(cs[j], last4))
    ensures (forall j :: 0 <= j < |cs| ==> !MatchesLast4(cs[j], last4)) <==> FirstMatch(cs, last4).None?
  {
    if cs != [] && !MatchesLast4(cs[0], last4) {
      var tail := cs[1..];
      FirstMatchIsFirst(tail, last4);
      var r := FirstMatch(tail, last4);
      assert FirstMatch(cs, last4) == r;
      assert forall j :: 1 <= j < |cs| ==> cs[j] == tail[j - 1];
      if r.Some? {
        var i :| 0 <= i < |tail| && tail[i] == r.value && MatchesLast4(tail[i], last4)
          && forall j :: 0 <= j < i ==> !MatchesLast4(tail[j], last4);
        assert cs[i + 1] == r.value;
        assert forall j :: 0 <= j < i + 1 ==> !MatchesLast4(cs[j], last4);
      }
    }
  }

  /** A customer that matches, with none matching before it, is the one found. */
  lemma FirstMatchAt(cs: seq<Customer>, last4: string, i: nat)
    requires i < |cs| && MatchesLast4(cs[i], last4)
    requires forall j :: 0 <= j < i ==> !MatchesLast4(cs[j], last4)
    ensures FirstMatch(cs, last4) == Some(cs[i])
  {
    FirstMatchIsFirst(cs, last4);
    var k :| 0 <= k < |cs| && cs[k] == FirstMatch(cs, last4).value && MatchesLast4(cs[k], last4)
      && forall j :: 0 <= j < k ==> !MatchesLast4(cs[j], last4);
    assert k == i;
  }

  /** The live scan from `url` after `done` pages: it stops at the first matching
      customer, after page `maxPages`, or after any page examined once the clock
      shows more than 3000 ms since the start. */
  function Scan(fetch: Fetch, next: LinkReader, clock: Clock, last4: string, url: Option<string>, done: nat, maxPages: int)
    : Result<seq<Customer>, Error>
    decreases maxPages - done
  {
    if url.None? || done >= maxPages then Ok([])
    else
      var page := fetch(url.value);
      if !page.ok then Err(HttpError(page.status))
      else match FirstMatch(page.customers, last4)
        case Some(c) => Ok([c])
        case None =>
          if clock(done + 1) - clock(0) > SCAN_TIME_BUDGET_MS then Ok([])
          else Scan(fetch, next, clock, last4, next(page.link), done + 1, maxPages)
  }

  /** The URLs the scan requests, in order. */
  function ScanRequests(fetch: Fetch, next: LinkReader, clock: Clock, last4: string, url: Option<string>, done: nat, maxPages: int)
    : seq<string>
    decreases maxPages - done
  {
    if url.None? || done >= maxPages then []
    else
      var page := fetch(url.value);
      [url.value] +
        if !page.ok || FirstMatch(page.customers, last4).Some?
           || clock(done + 1) - clock(0) > SCAN_TIME_BUDGET_MS then []
        else ScanRequests(fetch, next, clock, last4, next(page.link), done + 1, maxPages)
  }

  /** The scan of one page: its customers in order, stopping at the first whose
      phones include one ending with `last4`. */
  method FindMatch(customers: seq<Customer>, last4: string) returns (found: Option<Customer>)
    ensures found == FirstMatch(customers, last4)
  {
    for i := 0 to |customers|
      invariant forall j :: 0 <= j < i ==> !MatchesLast4(customers[j], last4)
    {
      var hasMatch := MatchesLast4(customers[i], last4);
      if hasMatch {
        FirstMatchAt(customers, last4, i);
        return Some(customers[i]);
      }
    }
    FirstMatchIsFirst(customers, last4);
    return None;
  }

  /** The scan stops without a request once there is no next page or the page
      ceiling is reached. */
  lemma ScanEnds(fetch: Fetch, next: LinkReader, clock: Clock, last4: string, url: Option<string>, done: nat, maxPages: int)
    requires url.None? || done >= maxPages
    ensures Scan(fetch, next, clock, last4, url, done, maxPages) == Ok([])
    ensures ScanRequests(fetch, next, clock, last4, url, done, maxPages) == []
  {
  }

  /** A page that is not OK ends the scan with its status. */
  lemma ScanFails(fetch: Fetch, next: LinkReader, clock: Clock, last4: string, url: string, done: nat, maxPages: int)
    requires done < maxPages && !fetch(url).ok
    ensures Scan(fetch, next, clock, last4, Some(url), done, maxPages) == Err(HttpError(fetch(url).status))
    ensures ScanRequests(fetch, next, clock, last4, Some(url), done, maxPages) == [url]
  {
    assert [url] + [] == [url];
  }

  /** A page with a matching customer ends the scan with that customer alone. */
  lemma ScanFinds(fetch: Fetch, next: LinkReader, clock: Clock, last4: string, url: string, done: nat, maxPages: int)
    requires done < maxPages && fetch(url).ok && FirstMatch(fetch(url).customers, last4).Some?
    ensures Scan(fetch, next, clock, last4, Some(url), done, maxPages)
      == Ok([FirstMatch(fetch(url).customers, last4).value])
    ensures ScanRequests(fetch, next, clock, last4, Some(url), done, maxPages) == [url]
  {
    assert [url] + [] == [url];
  }

  /** Once the clock shows the budget spent after a page without a match, the
      scan ends with nothing found. */
  lemma ScanTimesOut(fetch: Fetch, next: LinkReader, clock: Clock, last4: string, url: string, done: nat, maxPages: int)
    requires done < maxPages && fetch(url).ok && FirstMatch(fetch(url).customers, last4).None?
    requires clock(done + 1) - clock(0) > SCAN_TIME_BUDGET_MS
    ensures Scan(fetch, next, clock, last4, Some(url), done, maxPages) == Ok([])
    ensures ScanRequests(fetch, next, clock, last4, Some(url), done, maxPages) == [url]
  {
    assert [url] + [] == [url];
  }

  /** Otherwise the scan goes on with the next page. */
  lemma ScanContinues(fetch: Fetch, next: LinkReader, clock: Clock, last4: string, url: string, done: nat, maxPages: int)
    requires done < maxPages && fetch(url).ok && FirstMatch(fetch(url).customers, last4).None?
    requires clock(done + 1) - clock(0) <= SCAN_TIME_BUDGET_MS
    ensures Scan(fetch, next, clock, last4, Some(url), done, maxPages)
      == Scan(fetch, next, clock, last4, next(fetch(url).link), done + 1, maxPages)
    ensures ScanRequests(fetch, next, clock, last4, Some(url), done, maxPages)
      == [url] + ScanRequests(fetch, next, clock, last4, next(fetch(url).link), done + 1, maxPages)
  {
  }

  /** `getCustomersByLast4(last4, maxPages)`. */
  method GetCustomersByLast4(last4: string, maxPages: int, fetch: Fetch, next: LinkReader, clock: Clock)
    returns (r: Result<seq<Customer>, Error>, ghost requested: seq<string>)
    ensures !IsFourDigits(last4) ==> r == Err(InvalidLast4)
    ensures IsFourDigits(last4) ==> r == Scan(fetch, next, clock, last4, Some(FIRST_PAGE_URL), 0, maxPages)
    ensures !IsFourDigits(last4) ==> requested == []
    ensures IsFourDigits(last4) ==>
      requested == ScanRequests(fetch, next, clock, last4, Some(FIRST_PAGE_URL), 0, maxPages)
  {
    requested := [];
    if !IsFourDigits(last4) {
      return Err(InvalidLast4), requested;
    }
    var pageCount: nat := 0;
    var startTs := clock(0);
    var urlNext: Option<string> := Some(FIRST_PAGE_URL);
    var matches: seq<Customer> := [];
    ghost var outcome := Scan(fetch, next, clock, last4, urlNext, pageCount, maxPages);
    ghost var allRequests := ScanRequests(fetch, next, clock, last4, urlNext, pageCount, maxPages);
    while urlNext.Some? && pageCount < maxPages
      invariant matches == []
      invariant Scan(fetch, next, clock, last4, urlNext, pageCount, maxPages) == outcome
      invariant requested + ScanRequests(fetch, next, clock, last4, urlNext, pageCount, maxPages) == allRequests
      decreases maxPages - pageCount
    {
      var url := urlNext.value;
      ghost var done := pageCount;
      pageCount := pageCount + 1;
      var resp := fetch(url);
      ghost var before := requested;
      requested := requested + [url];
      if !resp.ok {
        ScanFails(fetch, next, clock, last4, url, done, maxPages);
        assert requested == allRequests;
        return Err(HttpError(resp.status)), requested;
      }
      var found := FindMatch(resp.customers, last4);
      if found.Some? {
        // the scan stops at the first customer that matches
        ScanFinds(fetch, next, clock, last4, url, done, maxPages);
        matches := matches + [found.value];
        r := Ok(matches);
        assert matches == [found.value];
        assert r == outcome && requested == allRequests;
        return r, requested;
      }
      if clock(pageCount) - startTs > SCAN_TIME_BUDGET_MS {
        // out of time: the loop is left with the (empty) matches
        ScanTimesOut(fetch, next, clock, last4, url, done, maxPages);
        r := Ok(matches);
        assert r == outcome && requested == allRequests;
        return r, requested;
      }
      ScanContinues(fetch, next, clock, last4, url, done, maxPages);
      urlNext := next(resp.link);
      assert before + ([url] + ScanRequests(fetch, next, clock, last4, urlNext, pageCount, maxPages))
        == requested + ScanRequests(fetch, next, clock, last4, urlNext, pageCount, maxPages);
    }
    if urlNext.None? || pageCount >= maxPages {
      ScanEnds(fetch, next, clock, last4, urlNext, pageCount, maxPages);
    }
    assert requested + [] == requested;
    return Ok(matches), requested;
  }

  /** The scan requests at most `maxPages` pages (counting those already read). */
  lemma {:induction false} ScanRequestsBound(fetch: Fetch, next: LinkReader, clock: Clock, last4: string, url: Option<string>, done: nat, maxPages: int)
    ensures |ScanRequests(fetch, next, clock, last4, url, done, maxPages)| <= if maxPages < done then 0 else maxPages - done
    decreases maxPages - done
  {
    if url.Some? && done < maxPages {
      var page := fetch(url.value);
      ScanRequestsBound(fetch, next, clock, last4, next(page.link), done + 1, maxPages);
    }
  }

  /** The scan returns at most one customer, and only one whose phone ends with
      `last4` and that was on a requested page. */
  lemma {:induction false} ScanResultMatches(fetch: Fetch, next: LinkReader, clock: Clock, last4: string, url: Option<string>, done: nat, maxPages: int)
    ensures match Scan(fetch, next, clock, last4, url, done, maxPages)
      case Ok(found) =>
        |found| <= 1
        && forall c :: c in found ==>
             MatchesLast4(c, last4) && c in PagesCustomers(fetch, ScanRequests(fetch, next, clock, last4, url, done, maxPages))
      case Err(_) => true
    decreases maxPages - done
  {
    if url.Some? && done < maxPages {
      var page := fetch(url.value);
      var reqs := ScanRequests(fetch, next, clock, last4, url, done, maxPages);
      FirstMatchIsFirst(page.customers, last4);
      if page.ok {
        var nu := next(page.link);
        ScanResultMatches(fetch, next, clock, last4, nu, done + 1, maxPages);
        var rest := ScanRequests(fetch, next, clock, last4, nu, done + 1, maxPages);
        if FirstMatch(page.customers, last4).None? && clock(done + 1) - clock(0) <= SCAN_TIME_BUDGET_MS {
          assert reqs == [url.value] + rest && reqs[1..] == rest;
        } else {
          assert reqs == [url.value] && reqs[1..] == [];
        }
      }
    }
  }

  /** An empty scan result means no customer on any requested page matches. */
  lemma {:induction false} ScanEmptyMeansNoMatch(fetch: Fetch, next: LinkReader, clock: Clock, last4: string, url: Option<string>, done: nat, maxPages: int)
    requires Scan(fetch, next, clock, last4, url, done, maxPages) == Ok([])
    ensures var seen := PagesCustomers(fetch, ScanRequests(fetch, next, clock, last4, url, done, maxPages));
      forall c :: c in seen ==> !MatchesLast4(c, last4)
    decreases maxPages - done
  {
    if url.Some? && done < maxPages {
      var page := fetch(url.value);
      var reqs := ScanRequests(fetch, next, clock, last4, url, done, maxPages);
      var nu := next(page.link);
      var rest := ScanRequests(fetch, next, clock, last4, nu, done + 1, maxPages);
      NoMatchOnPage(page.customers, last4);
      if clock(done + 1) - clock(0) <= SCAN_TIME_BUDGET_MS {
        ScanEmptyMeansNoMatch(fetch, next, clock, last4, nu, done + 1, maxPages);
        assert reqs == [url.value] + rest && reqs[1..] == rest;
      } else {
        assert reqs == [url.value] && reqs[1..] == [];
      }
    }
  }

  lemma NoMatchOnPage(cs: seq<Customer>, last4: string)
    requires FirstMatch(cs, last4).None?
    ensures forall c :: c in cs ==> !MatchesLast4(c, last4)
  {
    FirstMatchIsFirst(cs, last4);
    forall c | c in cs ensures !MatchesLast4(c, last4) {
      var k :| 0 <= k < |cs| && cs[k] == c;
    }
  }

  /** The scan paginates past a page only while the clock read after that page
      shows at most 3000 ms elapsed: every request but the last is followed by a
      reading within the budget. */
  lemma {:induction false} ScanTimeBudget(fetch: Fetch, next: LinkReader, clock: Clock, last4: string, url: Option<string>, done: nat, maxPages: int)
    ensures var reqs := ScanRequests(fetch, next, clock, last4, url, done, maxPages);
      forall k :: done < k < done + |reqs| ==> clock(k) - clock(0) <= SCAN_TIME_BUDGET_MS
    decreases maxPages - done
  {
    if url.Some? && done < maxPages {
      var page := fetch(url.value);
      var reqs := ScanRequests(fetch, next, clock, last4, url, done, maxPages);
      var nu := next(page.link);
      var rest := ScanRequests(fetch, next, clock, last4, nu, done + 1, maxPages);
      ScanTimeBudget(fetch, next, clock, last4, nu, done + 1, maxPages);
      if page.ok && FirstMatch(page.customers, last4).None? && clock(done + 1) - clock(0) <= SCAN_TIME_BUDGET_MS {
        assert reqs == [url.value] + rest;
        assert |reqs| == 1 + |rest|;
      }
    }
  }
}
