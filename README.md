# Customer lookup by the last four phone digits — a Dafny model

This project models the customer lookup of a shoe-repair shop's front desk. The
desk finds a customer by the last four digits of their phone number. The
project covers:

- the **index cache** of the current server's customer controller
  (`last4Cache`, `buildLast4IndexIfNeeded`, `searchByLast4`, and the cache
  invalidation in `createCustomer` and `updateCustomer`);
- the **legacy server**'s own version of the cache, with its three-tier
  handler of `GET /api/customers/search-last4` and its forced start-up and
  periodic rebuilds;
- the **customer service** helpers those handlers call. These are the paginated
  enumeration `getAllCustomersPaginated` and the bounded live scan
  `getCustomersByLast4`, both following the `Link: <…>; rel="next"` header.
  They also include the GraphQL search by phone suffix, the multi-field REST
  search with its merge by id, and the tag merge of `addTagToCustomer`;
- the **front-desk helpers** of the browser script. These cover the numeric
  customer id, the phone display formats, the telephone field, the sanitiser of
  the four-digit search box and the `#XXXX` ticket prefix. They also cover the
  ticket tabs: resizing the list of pairs, choosing a new tab number, and
  toggling accessories and the payment status.

Modules, one per file:

| file | module | what it holds |
|---|---|---|
| common.dfy | `Common` | `Option`, `Result` |
| text.dfy | `Text` | the JavaScript string operations the code relies on (`\D` stripping, `trim`, `split`, `join`, `includes`, `toLowerCase`) |
| customers.dfy | `Customers` | the customer record, its phones, the index key of a phone, the suffix match |
| last4_index.dfy | `Last4Index` | the build loop of both servers (`dedup` is true for the controller, false for the legacy server), its specification and its soundness and completeness |
| shopify_pagination.dfy | `ShopifyPagination` | `Link` header parsing, `getAllCustomersPaginated`, `getCustomersByLast4` |
| shopify_search.dfy | `ShopifySearch` | `searchCustomers`, `searchCustomersByLast4GraphQL`, `addTagToCustomer` |
| customers_controller.dfy | `CustomersController` | class `Last4Cache` and the controller's handlers |
| legacy_server.dfy | `LegacyServer` | class `LegacyCache`, the three-tier handler, the scheduled rebuild, and the duplicate listing of the legacy build |
| front_desk.dfy | `FrontDesk` | phone and id helpers of the browser script |
| ticket_tabs.dfy | `TicketTabs` | class `GlobalState` (the tabs) and the pair, accessory and payment handlers |

How the environment is modelled:

- **HTTP endpoints are total functions.** The REST endpoint is
  `Fetch = string -> Page` (URL to status, customers and `Link` header). The
  GraphQL endpoint is `(query, first) -> GqlResponse`. The search endpoint is
  `string -> SearchResponse`. A thrown request and a non-OK response are the
  same failed response.
- **Clocks are parameters.** `Date.now()` in a rebuild is `now`. The live scan
  reads a clock `nat -> int`: reading `0` is its start, and reading `k` is
  taken after page `k`.
- **Pagination and the link reader.** The pagination functions are written
  against any `LinkReader` (header to next URL). Every caller passes `NextUrl`,
  the model of the header parsing at lines 393-406 and 443-455 of the service.
- **Ghost out-parameters.** The pagination methods return the URLs they
  requested as ghost out-parameters.
- **Falsy fields are empty strings.** A missing, `null` or empty field is `""`.
- **Integers.** Prices and counts are unbounded integers.

The legacy server imports its customer service from a `utils/shopify` module.
That module is not part of this model. The legacy handler is modelled against
the service functions of `server/src/services/shopify.service.js`, which have
the same names and signatures.

## Model

| member | source | states |
|---|---|---|
| Text.Digits | server/src/controllers/customers.controller.js:37 | `replace(/\D/g, '')` keeps only digits and never lengthens the string |
| Text.DigitsKept | server/src/controllers/customers.controller.js:37 | a character is in the result exactly when it is a digit of the input |
| Text.DigitsAppend | server/src/controllers/customers.controller.js:37 | stripping distributes over concatenation, so the digits keep their order |
| Text.Trim | server/src/controllers/customers.controller.js:76 | `trim()` leaves no white space at either end and never lengthens the string |
| Text.TrimIsSlice | server/src/controllers/customers.controller.js:76 | the trimmed string is a slice of the input with only white space before and after it |
| Text.TrimWithout | server/src/services/shopify.service.js:228-229 | trimming adds no character, so a part without a comma stays without one |
| Text.TrimIdempotent | server/src/controllers/customers.controller.js:76 | trimming twice is trimming once |
| Text.Split | server/src/services/shopify.service.js:396 | `split(',')` always yields at least one part and no part holds the separator |
| Text.JoinSplit | server/src/services/shopify.service.js:227-228 | joining the parts of a split with the separator gives back the string |
| Customers.Phones | server/src/controllers/customers.controller.js:29-31 | the collected phones are exactly the non-empty primary and address phones |
| Customers.UniquePhones | server/src/controllers/customers.controller.js:34 | `[...new Set(phones)]` keeps the same phones with no repetition |
| Customers.PhoneKey | server/src/controllers/customers.controller.js:37-39 | a phone has a key exactly when it has at least four digits; the key is four digits and ends its digit string |
| Customers.KeyIsSuffix | server/src/services/shopify.service.js:375-378 | for a four-digit suffix, "some phone's digits end with it" and "it is the key of some phone" are equivalent |
| Last4Index.Build | server/src/controllers/customers.controller.js:26-50 | the outer build loop computes the index specified by `BuildIndex` |
| Last4Index.AddCustomer | server/src/controllers/customers.controller.js:36-49 | the loop over one customer's phones adds that customer as `IndexCustomer` specifies |
| Last4Index.AddPhone | server/src/controllers/customers.controller.js:37-47 | one phone of at least four digits creates its bucket if missing and pushes the customer, unless (controller) the id is already listed |
| Last4Index.BuildIndexBuckets | _legacy_backup/server.js:45-58 | each bucket of the built index is, in enumeration order, every customer with a phone of that key (repeated per phone in the legacy build, once in the controller's) |
| Last4Index.BuildIndexSound | server/src/controllers/customers.controller.js:37-41 | every key is four digits, every bucket is non-empty, and every listed customer comes from the enumeration and has a phone whose digits end with the key |
| Last4Index.BuildIndexComplete | server/src/controllers/customers.controller.js:28-49 | every enumerated customer is listed under the key of each of its phones with at least four digits |
| Last4Index.BuildIndexUniqueIds | server/src/controllers/customers.controller.js:44-47 | the controller's build never lists two customers with the same id in one bucket |
| Last4Index.SharedSuffixListing | _legacy_backup/server.js:46-56 | a customer with two different phones sharing a key is listed twice by the legacy build and once by the controller's |
| ShopifyPagination.AngleCapture | server/src/services/shopify.service.js:399-400 | `match(/<([^>]+)>/)` yields the non-empty text between the first `<` and the next `>`, with no `>` inside |
| ShopifyPagination.NextUrl | server/src/services/shopify.service.js:393-406 | the next URL comes from a part of the header that contains `rel="next"`; no header, no such part or no match gives none |
| ShopifyPagination.NextUrlSource | server/src/services/shopify.service.js:396-400 | a next URL is the capture of the first comma-separated part containing `rel="next"`, and every earlier part lacks it |
| ShopifyPagination.NextUrlOfNextPart | server/src/services/shopify.service.js:443-449 | a header whose first part is `<url>; rel="next"` yields `url` |
| ShopifyPagination.NextUrlSkipsPart | server/src/services/shopify.service.js:446 | a leading part without `rel="next"` is skipped |
| ShopifyPagination.GetAllCustomersPaginated | server/src/services/shopify.service.js:419-459 | the loop returns the `Walk` of the link chain from the first page under the page ceiling, and requests exactly the URLs `WalkRequests` lists |
| ShopifyPagination.WalkRequestsBound | server/src/services/shopify.service.js:424-425 | at most `maxPages` pages are requested |
| ShopifyPagination.WalkFollowsLinks | server/src/services/shopify.service.js:443-455 | the requests form the `rel="next"` chain from the first URL, each one answered OK before the next |
| ShopifyPagination.WalkIsConcatenation | server/src/services/shopify.service.js:434-441 | a successful enumeration is the in-order concatenation of the requested pages; a failed one reports the status of its last request |
| ShopifyPagination.FindMatch | server/src/services/shopify.service.js:370-386 | the page loop finds the first customer with a phone ending with the digits |
| ShopifyPagination.FirstMatchIsFirst | server/src/services/shopify.service.js:370-386 | the found customer matches and none before it does; nothing is found exactly when no customer of the page matches |
| ShopifyPagination.GetCustomersByLast4 | server/src/services/shopify.service.js:342-410 | an invalid key is rejected before any request; otherwise the loop returns the `Scan` and requests the URLs of `ScanRequests` |
| ShopifyPagination.ScanRequestsBound | server/src/services/shopify.service.js:352-353 | at most `maxPages` pages are requested |
| ShopifyPagination.ScanResultMatches | server/src/services/shopify.service.js:380-386 | a successful scan answers at most one customer, who matches and was on a requested page |
| ShopifyPagination.ScanEmptyMeansNoMatch | server/src/services/shopify.service.js:409 | an empty answer means no customer of any requested page matched |
| ShopifyPagination.ScanTimeBudget | server/src/services/shopify.service.js:390 | a page is requested after page `k` only if at most 3000 ms had elapsed when page `k` was done |
| ShopifySearch.SearchAttempts | server/src/services/shopify.service.js:24-29 | four queries: first name, last name, phone, then the bare term |
| ShopifySearch.SearchCustomers | server/src/services/shopify.service.js:16-73 | the result is the customers of the OK responses, in order, each id kept once |
| ShopifySearch.AddNewCustomers | server/src/services/shopify.service.js:52-56 | the inner loop adds exactly the customers whose id is not yet listed |
| ShopifySearch.AddNewByIdDedups | server/src/services/shopify.service.js:53 | the merged list keeps its prefix, lists no id twice and holds the id of every customer seen |
| ShopifySearch.SearchCustomersResult | server/src/services/shopify.service.js:31-68 | `searchCustomers` never repeats an id and holds the id of every customer of every OK response |
| ShopifySearch.PhoneQuery | server/src/services/shopify.service.js:473 | the query is `phone:*` followed by the digits |
| ShopifySearch.Normalize | server/src/services/shopify.service.js:510-521 | a node keeps its id, and its phone is the primary phone or else the address phone |
| ShopifySearch.FilterBySuffix | server/src/services/shopify.service.js:524 | the filter keeps exactly the customers whose phone digits end with the key |
| ShopifySearch.SearchByLast4GraphQL | server/src/services/shopify.service.js:468-526 | an invalid key is rejected, a non-OK response is a GraphQL error with its status, and a result implies a valid key and an OK response |
| ShopifySearch.GraphQLResultExact | server/src/services/shopify.service.js:508-525 | every customer returned matches the key, and every normalised node that matches is returned |
| ShopifySearch.ParsedTagsAreClean | server/src/services/shopify.service.js:227-235 | parsed tags are trimmed, non-empty and comma-free |
| ShopifySearch.MergeTags | server/src/services/shopify.service.js:237-242 | the merge loop computes `MergedTags` |
| ShopifySearch.AddTagToCustomer | server/src/services/shopify.service.js:202-275 | a missing id or blank tag fails before any request; a failed read or write fails with its status; otherwise the written tags are the merge of the existing and new tags |
| ShopifySearch.MergedTagsExtends | server/src/services/shopify.service.js:237-242 | the existing tags are kept, in place and in order, at the front |
| ShopifySearch.MergedTagsAppendsNew | server/src/services/shopify.service.js:237-242 | every tag after the existing ones is an incoming tag absent, up to case, from all tags before it |
| ShopifySearch.MergedTagsFoldsAccents | server/src/services/shopify.service.js:239 | an accented capital folds to its small letter: merging `ÉTÉ` into `[Été]` changes nothing |
| ShopifySearch.MergedTagsCovers | server/src/services/shopify.service.js:239 | after the merge every new tag is present up to case |
| ShopifySearch.MergedTagsNoCaseDuplicates | server/src/services/shopify.service.js:239-241 | a tag list without case-insensitive duplicates stays so |
| ShopifySearch.MergedTagsPresent | server/src/services/shopify.service.js:239 | tags already present up to case change nothing |
| ShopifySearch.MergedTagsIdempotent | server/src/services/shopify.service.js:237-242 | merging the same tags twice is merging once |
| ShopifySearch.ParseJoined | server/src/services/shopify.service.js:244 | clean tags joined with `, ` parse back to themselves |
| ShopifySearch.ParseUpdatedTags | server/src/services/shopify.service.js:224-244 | parsing the written tag string gives the merge of the parsed existing and new tags |
| ShopifySearch.UpdatedTagsIdempotent | server/src/services/shopify.service.js:224-244 | adding the same tag twice writes the same string as adding it once |
| CustomersController.Last4Cache.constructor | server/src/controllers/customers.controller.js:5-9 | an empty index, never built, ten-minute TTL |
| CustomersController.Last4Cache.BuildLast4IndexIfNeeded | server/src/controllers/customers.controller.js:14-58 | the cache becomes `Refreshed`: kept when fresh or when enumeration fails; otherwise the deduplicating build over 20 pages, stamped `now`; soundness preserved |
| CustomersController.Last4Cache.SearchByLast4 | server/src/controllers/customers.controller.js:74-99 | an invalid key is a 400 with the cache untouched; otherwise the cache is refreshed and the reply is `Lookup` (bucket, else GraphQL, error gives 500) |
| CustomersController.Last4Cache.CreateCustomer | server/src/controllers/customers.controller.js:101-117 | a created customer is a 201 and resets the build time to 0; a failure is a 500 and changes nothing |
| CustomersController.Last4Cache.UpdateCustomer | server/src/controllers/customers.controller.js:119-133 | an updated customer resets the build time to 0; a failure is a 500 and changes nothing |
| CustomersController.RefreshedIsAtomic | server/src/controllers/customers.controller.js:15-18 | a refresh keeps both fields or replaces both with the build and `now`, rebuilding exactly when not skipped and the enumeration succeeds |
| CustomersController.RefreshedSound | server/src/controllers/customers.controller.js:52-57 | a refresh keeps the index sound and every bucket free of repeated ids |
| CustomersController.InvalidatedRebuilds | server/src/controllers/customers.controller.js:110 | after the build time is reset to 0, and on a forced call, the next refresh rebuilds whatever the clock says |
| CustomersController.LookupSound | server/src/controllers/customers.controller.js:86-94 | every customer answered has a phone ending with the key, whichever tier answered |
| CustomersController.LookupTiers | server/src/controllers/customers.controller.js:86-92 | a non-empty bucket is answered as is; an empty one is answered by GraphQL, successfully exactly when its response is OK |
| LegacyServer.LegacyCache.constructor | _legacy_backup/server.js:30-34 | an empty index, never built, ten-minute TTL |
| LegacyServer.LegacyCache.BuildLast4IndexIfNeeded | _legacy_backup/server.js:36-63 | the cache is kept when fresh (not forced, within the TTL, non-empty); otherwise replaced by the non-deduplicating build over 100 pages; an enumeration error is returned and changes nothing |
| LegacyServer.LegacyCache.ScheduledRebuild | _legacy_backup/server.js:66-68 | the start-up and 15-minute rebuild is forced and its error is dropped |
| LegacyServer.LegacyCache.SearchLast4 | _legacy_backup/server.js:181-215 | an invalid key is a 400 with the cache untouched; otherwise a failed refresh is a 500, then bucket, then GraphQL (50), then the live scan (8 pages), each only when the earlier ones were empty |
| LegacyServer.EmptyIndexAlwaysRebuilds | _legacy_backup/server.js:38-40 | an empty index never counts as fresh |
| LegacyServer.LegacyRefreshedSound | _legacy_backup/server.js:60-61 | a refresh keeps both fields or replaces both with the build and `now`, and keeps the index sound |
| LegacyServer.LegacyLookupSound | _legacy_backup/server.js:191-209 | every customer answered has a phone ending with the key, whichever of the three tiers answered; the scan tier answers at most one |
| LegacyServer.LegacyAndDedupAgree | _legacy_backup/server.js:45-58 | the legacy and deduplicating builds have the same keys and list the same ids under each key |
| LegacyServer.LegacyListsTwice | _legacy_backup/server.js:46-56 | the customer with phones `0612345678` and `+33612345678` is listed twice under `5678` by the legacy build and once by the controller's |
| FrontDesk.ExtractNumericId | client/src/script_legacy.js:395-410 | a `gid://` id gives its trailing digit run exactly when a `/` precedes that run; any other id gives itself exactly when it is non-empty and all digits |
| FrontDesk.ExtractFromGid | client/src/script_legacy.js:399-402 | any `gid://…/<digits>` id gives back exactly its digits |
| FrontDesk.ExtractRejects | client/src/script_legacy.js:405-409 | an id that is neither a `gid://` id nor all digits gives nothing |
| FrontDesk.FormatPhoneNumber | client/src/script_legacy.js:1389-1406 | an empty phone stays empty; ten national digits give 14 characters; anything else is returned as given |
| FrontDesk.FormatPhoneNumberSound | client/src/script_legacy.js:1393-1403 | a formatted number reads back as its national digits, and formatting never changes the phone's index key |
| FrontDesk.ProgressiveIsPairs | client/src/script_legacy.js:1421-1444 | the chain of cases by length is the pairing of the digits |
| FrontDesk.TelephoneChange | client/src/script_legacy.js:1411-1457 | the stored value is the input's digits when there are at most ten, otherwise their first ten |
| FrontDesk.TelephoneFieldSound | client/src/script_legacy.js:1421-1457 | the display is at most 14 characters, is the pairing of the stored digits, gives them back without its spaces, and is stable when retyped |
| FrontDesk.TelephoneMatchesFormat | client/src/script_legacy.js:1444 | a full ten-digit number is shown as `formatPhoneNumber` shows it |
| FrontDesk.SearchIdChange | client/src/script_legacy.js:464-477 | the box is rewritten exactly when its trimmed content is non-empty and not one to four digits, and then to the first (at most four) digits of that content; a search happens exactly when the trimmed content is four digits, with that content as key |
| FrontDesk.SearchIdChangeSound | client/src/script_legacy.js:468-477 | a searched key passes the server's four-digit check, and a rewritten box is not rewritten again |
| FrontDesk.TelSuffix | client/src/script_legacy.js:3037-3038 | the prefix is empty or `#` and four digits |
| FrontDesk.TelSuffixIsKey | client/src/script_legacy.js:3037-3038 | the prefix is `#` and the phone's index key, or empty when the phone has no key |
| TicketTabs.FindPaire | client/src/script_legacy.js:1650 | `find` by id returns a listed pair with that id, and none exactly when no pair has it |
| TicketTabs.GlobalState.UpdateNbPaires | client/src/script_legacy.js:1609-1715 | the current tab becomes `UpdatedTab(tab, n)`; nothing else changes |
| TicketTabs.RebuildPaires | client/src/script_legacy.js:1638-1715 | the copying loops and the total pass compute `ResizedPairs` |
| TicketTabs.SumPrices | client/src/script_legacy.js:1714 | the `reduce` computes the sum of the prices |
| TicketTabs.UpdatedTabShape | client/src/script_legacy.js:1609-1715 | a resize gives exactly `n` pairs numbered 1 to `n`; each total is the sum of its prices; kept pairs carry their services and added pairs are empty |
| TicketTabs.ShrinkThenGrow | client/src/script_legacy.js:1641-1700 | shrinking and growing back keeps the services of the surviving pairs and empties the rest |
| TicketTabs.FirstFreeId | client/src/script_legacy.js:3659-3669 | the loop over the sorted ids finds the smallest positive number not in use |
| TicketTabs.GlobalState.CreateNewTab | client/src/script_legacy.js:3654-3704 | the new tab takes the smallest free number and is empty and current; `nextTabId` is one past the largest number |
| TicketTabs.GlobalState.SetPaymentStatus | client/src/script_legacy.js:1942-1951 | the current tab's status is toggled; nothing else changes |
| TicketTabs.Toggled | client/src/script_legacy.js:1947-1951 | choosing the current status clears it; choosing another sets it |
| TicketTabs.ToggledTwice | client/src/script_legacy.js:1947-1951 | from no status or from that same status, choosing a status twice restores the starting state |
| TicketTabs.GlobalState.HandleSacCheckboxChange | client/src/script_legacy.js:2868-2891 | the current tab's accessories are toggled and `avecSac` says whether any is left |
| TicketTabs.CheckedSound | client/src/script_legacy.js:2881-2883 | checking keeps the list in front, adds the accessory, and never lists one twice |
| TicketTabs.WithoutSound | client/src/script_legacy.js:2886 | unchecking removes every occurrence and keeps every other accessory |
| TicketTabs.CheckUncheck | client/src/script_legacy.js:2879-2887 | checking then unchecking an unlisted accessory restores the list |

## Left out

- HTTP, the request and response objects, `res.status(...).json(...)` and static files are left out. The handlers return a `Reply`. Error messages are not modelled, only which error occurred.
- Timers and concurrency are left out. `setTimeout`, `setInterval` and concurrent lookups are not modelled: each rebuild and lookup runs to completion, and a scheduled rebuild is an explicit call.
- URL encoding (`encodeURIComponent`) and the field lists of the REST URLs are left out; requests are keyed by plain strings.
- The DOM, rendering, event wiring, `console.log` and the parts of `createNewTab` that draw the tab are left out. Of `createNewTab`, only the number choice, the new tab and `nextTabId` are modelled.
- Sorting the tab keys in `createNewTab` is not modelled. `GlobalState.CreateNewTab` takes the sorted keys as its argument.
- Floating point is left out. Prices are integers (the catalogue prices are whole euros), whereas the source adds JavaScript numbers.
- `formatTelephone` and `formatHeure` are not modelled. They are display-only and feed neither the lookup nor the ticket state.
- Text.Lower: case folding covers the Latin-1 capitals (A to Z, À to Þ except ×) and Œ and Ÿ only. `toLowerCase` also folds Greek, Cyrillic, the rest of Latin Extended and other scripts, and those capitals are kept as they are here.
- ShopifySearch.MergedTags: two tags that differ only in a capital outside Latin-1, Œ and Ÿ (say `ΑΘΗΝΑ` and `αθηνα`) count as different, whereas the source treats them as the same.
- MergeTags and MergedTagsNoCaseDuplicates: "up to case" is the folding of `Text.Lower`, so both inherit its Latin-1 limit.
- AddTagToCustomer: it inherits the Latin-1 limit of the tag comparison. On success it returns the tag string written, not the `customer` object of the update's reply (server/src/services/shopify.service.js:269-270). The model has no customer record to return.
- `Text.IsSpace` covers the ASCII white space, no-break space, line and paragraph separators and the byte-order mark. It omits the other Unicode space separators (U+1680, U+2000–U+200A, U+202F, U+205F, U+3000) that `String.prototype.trim` also removes.
- The pagination functions accept any link reader, but every caller passes `NextUrl`. Their lemmas hold for any link reader.
- The legacy server's `utils/shopify` module is not part of this model. Its calls are modelled by the current service functions.
- `Last4Index.Sound` and the freshness predicates take the clock as a parameter. Date arithmetic beyond comparing the difference with the TTL is not modelled.
- TicketTabs.GlobalState.UpdateNbPaires: the pair count is a natural number. A negative count, which the buttons never send, is not modelled.

## Findings

| source | as written | input that shows it | evidently intended | confidence | as-written member | corrected member |
|---|---|---|---|---|---|---|
| _legacy_backup/server.js:46-56 | the legacy build pushes the customer once per phone field whose digits end with the key, so the first tier can answer the same customer twice | a customer with phone `0612345678` and address phone `+33612345678` (key `5678` for both) | each customer listed once per bucket, as the current controller's build does (lines 34 and 44-47 of server/src/controllers/customers.controller.js) | not executed | LegacyServer.LegacyListsTwice | Last4Index.BuildIndexUniqueIds |
