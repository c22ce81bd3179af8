/** The query side of the customer service: the multi-field REST search
    (`searchCustomers`), the GraphQL search by phone suffix
    (`searchCustomersByLast4GraphQL`) and the tag merge (`addTagToCustomer`). */
module ShopifySearch {
  import opened Common
  import opened Text
  import opened Customers
  import opened ShopifyPagination

  // ---------------------------------------------------------------------------
  // searchCustomers.

  /** A response of `customers/search.json`: whether it is OK (a response that is
      not OK and a request that throws are both skipped) and `data.customers || []`. */
  datatype SearchResponse = SearchResponse(ok: bool, customers: seq<Customer>)

  /** The search endpoint: what each search query answers. */
  type SearchEndpoint = string -> SearchResponse

  /** The four queries tried, in order: by first name, by last name, by phone, and
      the bare term. */
  function SearchAttempts(q: string): (attempts: seq<string>)
    ensures |attempts| == 4 && attempts[3] == q
    ensures StartsWith(attempts[0], "first_name:") && StartsWith(attempts[1], "last_name:")
      && StartsWith(attempts[2], "phone:")
  {
    ["first_name:" + q, "last_name:" + q, "phone:" + q, q]
  }

  /** The customers of the OK responses to `attempts`, in order. */
  function Found(search: SearchEndpoint, attempts: seq<string>): seq<Customer> {
    if attempts == [] then []
    else
      var resp := search(attempts[|attempts| - 1]);
      Found(search, attempts[..|attempts| - 1]) + (if resp.ok then resp.customers else [])
  }

  /** `acc` extended with each customer of `cs` whose id it does not hold yet. */
  function AddNewById(acc: seq<Customer>, cs: seq<Customer>): seq<Customer> {
    if cs == [] then acc
    else
      var r := AddNewById(acc, cs[..|cs| - 1]);
      var c := cs[|cs| - 1];
      if HasId(r, c.id) then r else r + [c]
  }

  /** `searchCustomers(query)`. */
  method SearchCustomers(query: string, search: SearchEndpoint) returns (all: seq<Customer>)
    ensures all == AddNewById([], Found(search, SearchAttempts(Trim(query))))
  {
    var cleanQuery := Trim(query);
    var attempts := SearchAttempts(cleanQuery);
    all := SearchEach(attempts, search);
  }

  /** The attempts loop: every query is tried in turn, and the customers of each
      OK response are added unless their id is already listed. */
  method SearchEach(attempts: seq<string>, search: SearchEndpoint) returns (all: seq<Customer>)
    ensures all == AddNewById([], Found(search, attempts))
  {
    all := [];
    for k := 0 to |attempts|
      invariant all == AddNewById([], Found(search, attempts[..k]))
    {
      var resp := search(attempts[k]);
      FoundStep(search, attempts, k);
      if resp.ok {
        AddNewByIdAppend([], Found(search, attempts[..k]), resp.customers);
        all := AddNewCustomers(all, resp.customers);
      }
    }
    assert attempts[..|attempts|] == attempts;
  }

  /** The dedup loop of one response: each customer is appended unless a
      customer with its id is already listed. */
  method AddNewCustomers(acc: seq<Customer>, cs: seq<Customer>) returns (r: seq<Customer>)
    ensures r == AddNewById(acc, cs)
  {
    r := acc;
    for i := 0 to |cs|
      invariant r == AddNewById(acc, cs[..i])
    {
      var c := cs[i];
      assert cs[..i + 1][..i] == cs[..i];
      if !HasId(r, c.id) {
        r := r + [c];
      }
    }
    assert cs[..|cs|] == cs;
  }

  /** One more attempt adds the customers of its response when it is OK, and
      nothing otherwise. */
  lemma FoundStep(search: SearchEndpoint, attempts: seq<string>, k: nat)
    requires k < |attempts|
    ensures search(attempts[k]).ok ==>
      Found(search, attempts[..k + 1]) == Found(search, attempts[..k]) + search(attempts[k]).customers
    ensures !search(attempts[k]).ok ==> Found(search, attempts[..k + 1]) == Found(search, attempts[..k])
  {
    assert attempts[..k + 1][..k] == attempts[..k];
    assert Found(search, attempts[..k]) + [] == Found(search, attempts[..k]);
  }

  lemma {:induction false} AddNewByIdAppend(acc: seq<Customer>, a: seq<Customer>, b: seq<Customer>)
    ensures AddNewById(acc, a + b) == AddNewById(AddNewById(acc, a), b)
    decreases |b|
  {
    if b == [] {
      assert a + b == a;
    } else {
      assert (a + b)[..|a + b| - 1] == a + b[..|b| - 1];
      AddNewByIdAppend(acc, a, b[..|b| - 1]);
    }
  }

  /** The accumulated list only grows at its end. */
  lemma {:induction false} AddNewByIdExtends(acc: seq<Customer>, cs: seq<Customer>)
    ensures |acc| <= |AddNewById(acc, cs)| && AddNewById(acc, cs)[..|acc|] == acc
  {
    if cs != [] {
      AddNewByIdExtends(acc, cs[..|cs| - 1]);
    }
  }

  /** No id is listed twice, every customer found has its id listed, and every
      listed customer was already there or was found. */
  lemma {:induction false} AddNewByIdDedups(acc: seq<Customer>, cs: seq<Customer>)
    requires UniqueIds(acc)
    ensures var r := AddNewById(acc, cs);
      UniqueIds(r)
      && (forall c :: c in cs ==> HasId(r, c.id))
      && (forall c :: c in r ==> c in acc || c in cs)
  {
    if cs != [] {
      var init := cs[..|cs| - 1];
      var c := cs[|cs| - 1];
      AddNewByIdDedups(acc, init);
      var r0 := AddNewById(acc, init);
      var r := AddNewById(acc, cs);
      assert forall x :: x in init ==> x in cs;
      if !HasId(r0, c.id) {
        assert r == r0 + [c];
        forall x | x in cs ensures HasId(r, x.id) {
          if x in init {
            var i :| 0 <= i < |r0| && r0[i].id == x.id;
            assert r[i] == r0[i];
          } else {
            assert r[|r0|] == c;
          }
        }
      } else {
        forall x | x in cs ensures HasId(r, x.id) {
          if x !in init {
            assert x == cs[|cs| - 1];
          }
        }
      }
    }
  }

  /** `searchCustomers` lists each customer at most once by id, lists every
      customer an OK attempt returned, and lists only such customers. */
  lemma SearchCustomersResult(query: string, search: SearchEndpoint)
    ensures var found := Found(search, SearchAttempts(Trim(query)));
      var all := AddNewById([], found);
      UniqueIds(all)
      && (forall c :: c in found ==> HasId(all, c.id))
      && (forall c :: c in all ==> c in found)
  {
    AddNewByIdDedups([], Found(search, SearchAttempts(Trim(query))));
  }

  // ---------------------------------------------------------------------------
  // searchCustomersByLast4GraphQL.

  /** A customer node of the GraphQL answer; "" stands for a `null` field. */
  datatype GqlNode = GqlNode(
    id: string,
    firstName: string,
    lastName: string,
    email: string,
    phone: string,
    addressPhone: string)

  /** The GraphQL answer: whether it is OK, its status and its customer nodes
      (`data?.data?.customers?.edges || []`). */
  datatype GqlResponse = GqlResponse(ok: bool, status: int, nodes: seq<GqlNode>)

  /** The GraphQL endpoint, given the query string `q` and the count `first`. */
  type GqlEndpoint = (string, int) -> GqlResponse

  /** The search string sent: any phone ending with `last4`. */
  function PhoneQuery(last4: string): (q: string)
    ensures StartsWith(q, "phone:*") && EndsWith(q, last4)
  {
    "phone:*" + last4
  }

  /** The REST-like record the front end expects: the primary phone, or else the
      default address phone, becomes the only phone. */
  function Normalize(n: GqlNode): (c: Customer)
    ensures c.id == n.id && c.addressPhone == []
    ensures Phones(c) == if n.phone != [] then [n.phone] else if n.addressPhone != [] then [n.addressPhone] else []
  {
    Customer(n.id, n.firstName, n.lastName, n.email, if n.phone != [] then n.phone else n.addressPhone, [])
  }

  /** The customers whose phone digits end with `last4`, in their order. */
  function FilterBySuffix(cs: seq<Customer>, last4: string): (r: seq<Customer>)
    ensures |r| <= |cs|
    ensures forall c :: c in r <==> c in cs && EndsWith(Digits(c.phone), last4)
  {
    if cs == [] then []
    else (if EndsWith(Digits(cs[0].phone), last4) then [cs[0]] else []) + FilterBySuffix(cs[1..], last4)
  }

  /** `edges.map(...)`. */
  function NormalizeAll(nodes: seq<GqlNode>): (cs: seq<Customer>)
    ensures |cs| == |nodes| && forall i :: 0 <= i < |nodes| ==> cs[i] == Normalize(nodes[i])
  {
    if nodes == [] then [] else [Normalize(nodes[0])] + NormalizeAll(nodes[1..])
  }

  /** `searchCustomersByLast4GraphQL(last4, first)`. */
  function SearchByLast4GraphQL(last4: string, first: int, gql: GqlEndpoint): (r: Result<seq<Customer>, Error>)
    ensures r == Err(InvalidLast4) <==> !IsFourDigits(last4)
    ensures IsFourDigits(last4) && !gql(PhoneQuery(last4), first).ok
      ==> r == Err(GraphQLError(gql(PhoneQuery(last4), first).status))
    ensures r.Ok? ==> IsFourDigits(last4) && gql(PhoneQuery(last4), first).ok
  {
    if !IsFourDigits(last4) then Err(InvalidLast4)
    else
      var resp := gql(PhoneQuery(last4), first);
      if !resp.ok then Err(GraphQLError(resp.status))
      else Ok(FilterBySuffix(NormalizeAll(resp.nodes), last4))
  }

  /** The GraphQL search returns exactly the normalised nodes having a phone that
      ends with `last4`: the server-side filter keeps every such node and only
      such nodes, whatever the platform's own query matched. */
  lemma GraphQLResultExact(last4: string, first: int, gql: GqlEndpoint)
    requires SearchByLast4GraphQL(last4, first, gql).Ok?
    ensures var resp := gql(PhoneQuery(last4), first);
      var found := SearchByLast4GraphQL(last4, first, gql).value;
      (forall c :: c in found ==> MatchesLast4(c, last4))
      && (forall i :: 0 <= i < |resp.nodes| && MatchesLast4(Normalize(resp.nodes[i]), last4)
            ==> Normalize(resp.nodes[i]) in found)
  {
    var resp := gql(PhoneQuery(last4), first);
    var all := NormalizeAll(resp.nodes);
    var found := SearchByLast4GraphQL(last4, first, gql).value;
    forall c | c in found ensures MatchesLast4(c, last4) {
      assert c.addressPhone == [] by {
        var i :| 0 <= i < |all| && all[i] == c;
      }
      assert c.phone != [] by {
        assert EndsWith(Digits(c.phone), last4);
      }
      assert Phones(c) == [c.phone];
    }
    forall i | 0 <= i < |resp.nodes| && MatchesLast4(Normalize(resp.nodes[i]), last4)
      ensures Normalize(resp.nodes[i]) in found
    {
      var c := Normalize(resp.nodes[i]);
      assert all[i] == c;
      AnyEndsWithSome(Phones(c), last4);
    }
  }

  // ---------------------------------------------------------------------------
  // addTagToCustomer.

  /** A tag as stored after normalisation: non-empty, trimmed, without a comma. */
  predicate CleanTag(t: string) {
    t != [] && Trimmed(t) && ',' !in t
  }

  predicate AllClean(tags: seq<string>) {
    forall k :: 0 <= k < |tags| ==> CleanTag(tags[k])
  }

  /** Each part trimmed, with the parts left empty dropped. */
  function CleanTags(parts: seq<string>): seq<string> {
    if parts == [] then []
    else
      var t := Trim(parts[0]);
      (if t != [] then [t] else []) + CleanTags(parts[1..])
  }

  /** A comma-separated tag list, normalised. */
  function ParseTags(s: string): seq<string> {
    CleanTags(Split(s, ','))
  }

  lemma TrimmedPartIsClean(part: string)
    requires ',' !in part
    ensures Trim(part) != [] ==> CleanTag(Trim(part))
  {
    TrimWithout(part, ',');
  }

  lemma {:induction false} CleanTagsAreClean(parts: seq<string>)
    requires forall k :: 0 <= k < |parts| ==> ',' !in parts[k]
    ensures AllClean(CleanTags(parts))
  {
    if parts != [] {
      TrimmedPartIsClean(parts[0]);
      CleanTagsAreClean(parts[1..]);
    }
  }

  /** Every parsed tag is non-empty, trimmed and free of commas. */
  lemma ParsedTagsAreClean(s: string)
    ensures AllClean(ParseTags(s))
  {
    CleanTagsAreClean(Split(s, ','));
  }

  /** Some tag equals `t` once both are lower-cased. */
  predicate HasTagIgnoringCase(tags: seq<string>, t: string) {
    tags != [] && (EqualIgnoringCase(tags[0], t) || HasTagIgnoringCase(tags[1..], t))
  }

  /** The tags after the merge loop: each incoming tag, in order, is appended
      unless the list already holds it up to letter case. */
  function MergedTags(existing: seq<string>, incoming: seq<string>): seq<string>
    decreases |incoming|
  {
    if incoming == [] then existing
    else
      var t := incoming[0];
      MergedTags(if HasTagIgnoringCase(existing, t) then existing else existing + [t], incoming[1..])
  }

  /** The tag string written back: `currentTags` merged with the tags in `tag`,
      joined by ", ". */
  function UpdatedTags(currentTags: string, tag: string): string {
    Join(MergedTags(ParseTags(currentTags), ParseTags(tag)), ", ")
  }

  /** The merge loop: each tag of `newTags` is appended to `existingTags` unless
      some tag there equals it up to letter case. */
  method MergeTags(existingTags: seq<string>, newTags: seq<string>) returns (tags: seq<string>)
    ensures tags == MergedTags(existingTags, newTags)
  {
    tags := existingTags;
    for i := 0 to |newTags|
      invariant MergedTags(tags, newTags[i..]) == MergedTags(existingTags, newTags)
    {
      var t := newTags[i];
      assert newTags[i..][1..] == newTags[i + 1..];
      if !HasTagIgnoringCase(tags, t) {
        tags := tags + [t];
      }
    }
  }

  /** What reading a customer answers: OK or not, its status, and `customer.tags || ''`. */
  datatype CustomerRead = CustomerRead(ok: bool, status: int, tags: string)

  /** What writing a customer's tags answers. */
  datatype TagsWritten = TagsWritten(ok: bool, status: int)

  /** `addTagToCustomer(customerId, tag)`: on success, the tag string written.
      `written` is the tag string sent with the update, if one was sent. */
  method AddTagToCustomer(customerId: string, tag: string, read: string -> CustomerRead,
                          write: (string, string) -> TagsWritten)
    returns (r: Result<string, Error>, ghost written: Option<string>)
    ensures customerId == [] ==> r == Err(MissingCustomerId)
    ensures customerId != [] && Trim(tag) == [] ==> r == Err(MissingTag)
    ensures customerId != [] && Trim(tag) != [] && !read(customerId).ok
      ==> r == Err(CustomerReadError(read(customerId).status))
    ensures customerId != [] && Trim(tag) != [] && read(customerId).ok ==>
      var updated := UpdatedTags(read(customerId).tags, tag);
      r == if write(customerId, updated).ok then Ok(updated)
           else Err(TagsUpdateError(write(customerId, updated).status))
    ensures customerId == [] || Trim(tag) == [] || !read(customerId).ok ==> written == None
    ensures customerId != [] && Trim(tag) != [] && read(customerId).ok ==>
      written == Some(UpdatedTags(read(customerId).tags, tag))
  {
    written := None;
    if customerId == [] {
      return Err(MissingCustomerId), written;
    }
    if Trim(tag) == [] {
      return Err(MissingTag), written;
    }
    var current := read(customerId);
    if !current.ok {
      return Err(CustomerReadError(current.status)), written;
    }
    var existingTags := ParseTags(current.tags);
    var newTags := ParseTags(tag);
    existingTags := MergeTags(existingTags, newTags);
    var updatedTags := Join(existingTags, ", ");
    written := Some(updatedTags);
    var putResp := write(customerId, updatedTags);
    if !putResp.ok {
      return Err(TagsUpdateError(putResp.status)), written;
    }
    return Ok(updatedTags), written;
  }

  lemma {:induction false} HasTagAppend(tags: seq<string>, x: string, t: string)
    ensures HasTagIgnoringCase(tags + [x], t) <==> HasTagIgnoringCase(tags, t) || EqualIgnoringCase(x, t)
  {
    if tags != [] {
      assert (tags + [x])[0] == tags[0] && (tags + [x])[1..] == tags[1..] + [x];
      HasTagAppend(tags[1..], x, t);
    } else {
      assert (tags + [x])[1..] == [];
    }
  }

  lemma {:induction false} HasTagPrefix(tags: seq<string>, n: nat, t: string)
    requires n <= |tags| && HasTagIgnoringCase(tags[..n], t)
    ensures HasTagIgnoringCase(tags, t)
  {
    if tags[..n] != [] {
      assert tags[..n][0] == tags[0];
      if !EqualIgnoringCase(tags[0], t) {
        assert tags[..n][1..] == tags[1..][..n - 1];
        HasTagPrefix(tags[1..], n - 1, t);
      }
    }
  }

  lemma {:induction false} HasTagOfMember(tags: seq<string>, t: string)
    requires t in tags
    ensures HasTagIgnoringCase(tags, t)
  {
    if tags[0] != t {
      HasTagOfMember(tags[1..], t);
    }
  }

  /** The merge keeps the existing tags, in place and in order, at the front. */
  lemma {:induction false} MergedTagsExtends(existing: seq<string>, incoming: seq<string>)
    ensures var m := MergedTags(existing, incoming);
      |existing| <= |m| && m[..|existing|] == existing
    decreases |incoming|
  {
    if incoming != [] {
      var t := incoming[0];
      var next := if HasTagIgnoringCase(existing, t) then existing else existing + [t];
      MergedTagsExtends(next, incoming[1..]);
      var m := MergedTags(existing, incoming);
      assert m[..|existing|] == m[..|next|][..|existing|];
    }
  }

  /** What the merge adds after the existing tags are incoming tags, each one
      absent, up to letter case, from everything before it. */
  lemma {:induction false} MergedTagsAppendsNew(existing: seq<string>, incoming: seq<string>)
    ensures var m := MergedTags(existing, incoming);
      forall k :: |existing| <= k < |m| ==> m[k] in incoming && !HasTagIgnoringCase(m[..k], m[k])
    decreases |incoming|
  {
    if incoming != [] {
      var t := incoming[0];
      var next := if HasTagIgnoringCase(existing, t) then existing else existing + [t];
      MergedTagsAppendsNew(next, incoming[1..]);
      MergedTagsExtends(next, incoming[1..]);
      var m := MergedTags(existing, incoming);
      assert m == MergedTags(next, incoming[1..]);
      forall k | |existing| <= k < |m|
        ensures m[k] in incoming && !HasTagIgnoringCase(m[..k], m[k])
      {
        if k < |next| {
          assert m[k] == next[k] == t;
          assert m[..k] == m[..|next|][..k] == existing;
        } else {
          assert m[k] in incoming[1..];
        }
      }
    }
  }

  /** Afterwards every incoming tag is present up to letter case, and every tag
      comes from the existing list or the incoming one. */
  lemma {:induction false} MergedTagsCovers(existing: seq<string>, incoming: seq<string>)
    ensures var m := MergedTags(existing, incoming);
      (forall t :: t in incoming ==> HasTagIgnoringCase(m, t))
      && (forall t :: t in m ==> t in existing || t in incoming)
    decreases |incoming|
  {
    if incoming != [] {
      var t := incoming[0];
      var next := if HasTagIgnoringCase(existing, t) then existing else existing + [t];
      MergedTagsCovers(next, incoming[1..]);
      MergedTagsExtends(next, incoming[1..]);
      var m := MergedTags(existing, incoming);
      if next == existing + [t] {
        HasTagAppend(existing, t, t);
      }
      HasTagPrefix(m, |next|, t);
      forall u | u in incoming ensures HasTagIgnoringCase(m, u) {
        if u != t {
          assert u in incoming[1..];
        }
      }
    }
  }

  /** No two tags are equal up to letter case. */
  predicate NoCaseDuplicates(tags: seq<string>) {
    forall i :: 0 <= i < |tags| ==> !HasTagIgnoringCase(tags[..i], tags[i])
  }

  /** The merge never introduces a tag that differs only by letter case from one
      already there. */
  lemma {:induction false} MergedTagsNoCaseDuplicates(existing: seq<string>, incoming: seq<string>)
    requires NoCaseDuplicates(existing)
    ensures NoCaseDuplicates(MergedTags(existing, incoming))
    decreases |incoming|
  {
    if incoming != [] {
      var t := incoming[0];
      if !HasTagIgnoringCase(existing, t) {
        var next := existing + [t];
        forall i | 0 <= i < |next| ensures !HasTagIgnoringCase(next[..i], next[i]) {
          if i < |existing| {
            assert next[..i] == existing[..i];
          } else {
            assert next[..i] == existing;
          }
        }
        MergedTagsNoCaseDuplicates(next, incoming[1..]);
      } else {
        MergedTagsNoCaseDuplicates(existing, incoming[1..]);
      }
    }
  }

  /** An accented capital counts as its small letter: "ÉTÉ" is already there when
      "Été" is. */
  lemma MergedTagsFoldsAccents()
    ensures MergedTags(["\U{C9}t\U{E9}"], ["\U{C9}T\U{C9}"]) == ["\U{C9}t\U{E9}"]
  {
    var a, b := "\U{C9}t\U{E9}", "\U{C9}T\U{C9}";
    forall i | 0 <= i < |a|
      ensures Lower(a)[i] == Lower(b)[i]
    {
    }
    assert EqualIgnoringCase(a, b);
    assert HasTagIgnoringCase([a], b);
  }

  /** Merging tags that are all present already changes nothing. */
  lemma {:induction false} MergedTagsPresent(existing: seq<string>, incoming: seq<string>)
    requires forall t :: t in incoming ==> HasTagIgnoringCase(existing, t)
    ensures MergedTags(existing, incoming) == existing
    decreases |incoming|
  {
    if incoming != [] {
      assert incoming[0] in incoming;
      assert forall t :: t in incoming[1..] ==> t in incoming;
      MergedTagsPresent(existing, incoming[1..]);
    }
  }

  /** Merging the same tags a second time changes nothing. */
  lemma MergedTagsIdempotent(existing: seq<string>, incoming: seq<string>)
    ensures MergedTags(MergedTags(existing, incoming), incoming) == MergedTags(existing, incoming)
  {
    MergedTagsCovers(existing, incoming);
    MergedTagsPresent(MergedTags(existing, incoming), incoming);
  }

  lemma {:induction false} TrimAllSpace(s: string)
    requires Blank(s)
    ensures Trim(s) == []
  {
    TrimLeadingSpace(s, []);
    assert s + [] == s;
  }

  /** The first part of a split is cleaned on its own. */
  lemma CleanTagsCons(p: string, ps: seq<string>)
    ensures CleanTags([p] + ps) == (if Trim(p) == [] then [] else [Trim(p)]) + CleanTags(ps)
  {
    assert ([p] + ps)[0] == p && ([p] + ps)[1..] == ps;
  }

  lemma BlankWithoutComma(lead: string)
    requires Blank(lead)
    ensures ',' !in lead
  {
  }

  /** A clean tag after white space trims to itself, and the two hold no comma. */
  lemma TagAfterSpace(lead: string, t: string)
    requires Blank(lead)
    requires CleanTag(t)
    ensures Trim(lead + t) == t && ',' !in lead + t
  {
    TrimLeadingSpace(lead, t);
    TrimUnchanged(t);
    BlankWithoutComma(lead);
  }

  /** White space alone holds no tag. */
  lemma CleanTagsBlank(lead: string)
    requires Blank(lead)
    ensures CleanTags([lead]) == []
  {
    TrimAllSpace(lead);
    CleanTagsCons(lead, []);
    assert [lead] + [] == [lead];
  }

  lemma ParseNoTags(lead: string)
    requires Blank(lead)
    ensures ParseTags(lead) == []
  {
    BlankWithoutComma(lead);
    SplitNoSeparator(lead, ',');
    CleanTagsBlank(lead);
  }

  lemma ParseOneTag(lead: string, t: string)
    requires Blank(lead)
    requires CleanTag(t)
    ensures ParseTags(lead + t) == [t]
  {
    var s := lead + t;
    TagAfterSpace(lead, t);
    assert Split(s, ',') == [s] by {
      SplitNoSeparator(s, ',');
    }
    CleanTagsCons(s, []);
    assert [s] + [] == [s];
  }

  lemma ParseFirstTag(lead: string, t: string, rest: string)
    requires Blank(lead)
    requires CleanTag(t)
    ensures ParseTags((lead + t) + [','] + rest) == [t] + ParseTags(rest)
  {
    var s := lead + t;
    TagAfterSpace(lead, t);
    assert Split(s + [','] + rest, ',') == [s] + Split(rest, ',') by {
      SplitAtSeparator(s, ',', rest);
    }
    CleanTagsCons(s, Split(rest, ','));
  }

  lemma JoinedWithComma(lead: string, t: string, rest: string)
    ensures lead + (t + ", " + rest) == (lead + t) + [','] + (" " + rest)
  {
    assert ", " == [','] + " ";
  }

  lemma ParseJoinedSingle(lead: string, tags: seq<string>)
    requires Blank(lead)
    requires AllClean(tags) && |tags| == 1
    ensures ParseTags(lead + Join(tags, ", ")) == tags
  {
    var t := tags[0];
    assert tags == [t];
    assert Join(tags, ", ") == t;
    assert CleanTag(t);
    ParseOneTag(lead, t);
  }

  /** Parsing a tag list written with ", " between the tags gives the tags back
      (`lead` is the space left over from the previous separator). */
  lemma {:induction false} ParseJoinedTags(lead: string, tags: seq<string>)
    requires Blank(lead)
    requires AllClean(tags)
    ensures ParseTags(lead + Join(tags, ", ")) == tags
    decreases |tags|
  {
    if tags == [] {
      ParseNoTags(lead);
      assert lead + Join(tags, ", ") == lead;
    } else if |tags| == 1 {
      ParseJoinedSingle(lead, tags);
    } else {
      var tail := tags[1..];
      assert AllClean(tail);
      ParseJoinedTags(" ", tail);
      ParseJoinedFirst(lead, tags);
      assert [tags[0]] + tail == tags;
    }
  }

  /** The first of several joined tags parses off the front. */
  lemma ParseJoinedFirst(lead: string, tags: seq<string>)
    requires Blank(lead)
    requires AllClean(tags) && |tags| >= 2
    ensures ParseTags(lead + Join(tags, ", ")) == [tags[0]] + ParseTags(" " + Join(tags[1..], ", "))
  {
    var rest := Join(tags[1..], ", ");
    assert Join(tags, ", ") == tags[0] + ", " + rest;
    assert CleanTag(tags[0]);
    JoinedWithComma(lead, tags[0], rest);
    ParseFirstTag(lead, tags[0], " " + rest);
  }

  /** Merging clean tags gives clean tags. */
  lemma MergedTagsClean(existing: seq<string>, incoming: seq<string>)
    requires AllClean(existing) && AllClean(incoming)
    ensures AllClean(MergedTags(existing, incoming))
  {
    var m := MergedTags(existing, incoming);
    MergedTagsCovers(existing, incoming);
    forall k | 0 <= k < |m| ensures CleanTag(m[k]) {
      assert m[k] in m;
      if m[k] in existing {
        var i :| 0 <= i < |existing| && existing[i] == m[k];
      } else {
        var i :| 0 <= i < |incoming| && incoming[i] == m[k];
      }
    }
  }

  /** The tag string written parses back to the merged tags. */
  lemma ParseUpdatedTags(currentTags: string, tag: string)
    ensures ParseTags(UpdatedTags(currentTags, tag)) == MergedTags(ParseTags(currentTags), ParseTags(tag))
  {
    var existing := ParseTags(currentTags);
    var incoming := ParseTags(tag);
    var m := MergedTags(existing, incoming);
    ParsedTagsAreClean(currentTags);
    ParsedTagsAreClean(tag);
    MergedTagsClean(existing, incoming);
    ParseJoined(m);
  }

  /** Clean tags joined by ", " parse back to themselves. */
  lemma ParseJoined(tags: seq<string>)
    requires AllClean(tags)
    ensures ParseTags(Join(tags, ", ")) == tags
  {
    var joined := Join(tags, ", ");
    assert [] + joined == joined;
    ParseJoinedTags([], tags);
  }

  /** Adding the same tags twice writes the same tag string as adding them once. */
  lemma UpdatedTagsIdempotent(currentTags: string, tag: string)
    ensures UpdatedTags(UpdatedTags(currentTags, tag), tag) == UpdatedTags(currentTags, tag)
  {
    ParseUpdatedTags(currentTags, tag);
    MergedTagsIdempotent(ParseTags(currentTags), ParseTags(tag));
  }

}
