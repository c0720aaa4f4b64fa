# Product big list — a Dafny model of the paging controller

The widget is a search box above an infinitely scrolling product list. This
project models its paging controller and its data boundary as pure functions
over immutable values, and proves what they promise.

- `ProductSchema` (`product_schema.dfy`): the product record schema as an
  explicit decoder from an untyped `JsonValue` to a `Product`. It returns
  `Success` or `Failure` with one issue per offending field, listed in
  declaration order.
- `DummyProduct` (`dummy_product.dfy`): the catalog client, split into three
  parts:
  - `BuildRequest` builds the request: it picks the endpoint and lists the
    `limit`, `skip` and optional `q` parameters.
  - `Normalise` normalises the response. A missing `products` field means an
    empty page. Every record is decoded, and one bad record fails the page.
  - `GetDummyProducts` composes the two around a transport passed in as a
    parameter.
- `App` (`app.dfy`): the list state. It holds the products, the total, the
  committed search text and the load-more request in flight. It also gives
  the derived `HasMore`, `ItemCount`, `IsItemLoaded` and the status line.
  Every change is an event: `Mount`, `SearchCommitted`, `SearchLoaded`,
  `BeginLoad`, `LoadOk` and `LoadFailed`. `Step` gives the next state and the
  catalog calls sent, and `Run` folds a trace of events.
- `Wrappers` (`wrappers.dfy`): `Option` and `Result`.

Behaviour of the code that the model keeps as written:

- A load-more call sends no search text. While a search is active it
  therefore fetches the plain listing and appends it to the search results
  (`App.SearchThenLoadMoreOutgrowsTotal`).
- The append guard compares the request offset with the list as it was when
  the call started. The append itself extends the current list.
- There is no per-offset pending set and no discarding of stale answers. A
  page-1 answer always replaces the list. The only guard against overlapping
  loads is the single in-flight flag.
- The loaded list is not kept within `total`: `|products| <= total` is not
  an invariant of the code. `App.SearchThenLoadMoreOutgrowsTotal` shows a
  trace that ends with more rows than the total.
- `hasMore` keeps a one-row margin (`|products| + 1 < total`). As a result, a
  list whose total is one more than what is loaded is already treated as
  complete. On first render (total 0) the end-of-data line is shown.
- On mount, both page-1 effects run: the one keyed on the search text (with
  `q: ""`) and the mount-only one. With no search text, both send the same
  request.

## Model

| member | source | states |
|---|---|---|
| ProductSchema.Decode | src/features/product-list/ProductList.constant.ts:4-10 | parsing succeeds iff the value is an object whose `id` and `price` are numbers and `title`, `description`, `thumbnail` strings; the product carries those values unchanged; a failure lists at least one issue, every issue is genuine, and every offending field is reported (missing as `Required`, mistyped as `InvalidType`); a non-object fails with `NotAnObject` |
| ProductSchema.WellTypedMatchesSchema | src/features/product-list/ProductList.constant.ts:4-10 | the five field checks are exactly "every declared field has its declared type" |
| ProductSchema.MissingFieldFails | src/features/product-list/ProductList.constant.ts:4-10 | a record missing any one declared field fails, naming that field |
| ProductSchema.WrongTypeFails | src/features/product-list/ProductList.constant.ts:5-9 | a record whose declared field has the wrong type fails, naming the field and the expected type |
| ProductSchema.Encode | src/features/product-list/ProductList.constant.ts:3-10 | the record of a product is an object with exactly the declared field names |
| ProductSchema.DecodeEncode | src/features/product-list/ProductList.constant.ts:3-10 | parsing the record of a product gives the product back |
| ProductSchema.EncodeDecode | src/features/product-list/ProductList.constant.ts:3-10 | a successful parse keeps exactly the declared fields: the parsed product's record is the input restricted to them |
| ProductSchema.DecodeReadsOnlyDeclaredFields | src/features/product-list/ProductList.constant.ts:3-10 | two records that agree on the declared fields parse to the same result |
| ProductSchema.ExtraFieldIgnored | src/features/product-list/ProductList.constant.ts:3 | adding or overwriting an undeclared field does not change the parse result |
| DummyProduct.EffectiveLimit | src/api/dummy-product.ts:12 | the page size is the given one when present and non-zero, else 10; it is never 0 |
| DummyProduct.EffectiveSkip | src/api/dummy-product.ts:14 | the offset is the given one when present (0 stays 0), else 0 |
| DummyProduct.SearchText | src/api/dummy-product.ts:23 | a search text is used only when present and non-empty |
| DummyProduct.BuildRequest | src/api/dummy-product.ts:16-26 | parameters start with `limit` then `skip` at their effective values; the search endpoint is chosen iff `q` is non-empty, and then `q` is appended as the third and last parameter; otherwise the plain listing endpoint gets exactly two parameters |
| DummyProduct.RequestReadsBack | src/api/dummy-product.ts:16-26 | reading the request back by key yields the effective `limit` and `skip`, and `q` exactly when a non-empty search text was given |
| DummyProduct.DefaultingIdempotent | src/api/dummy-product.ts:12-26 | a query already holding the effective values builds the same request |
| DummyProduct.DecodeAll | src/api/dummy-product.ts:37 | all records parse iff the result is a success, which then has the same length and order and holds each record's parsed product; a failure names the first failing record and its issues, all earlier records parsing |
| DummyProduct.Normalise | src/api/dummy-product.ts:32-39 | no `products` gives an empty page with total 0; otherwise the page is the records parsed in order with the total passed through, and the page fails iff some record fails |
| DummyProduct.GetDummyProducts | src/api/dummy-product.ts:9-40 | the call sends `BuildRequest(query)`; a rejected transport is `FetchFailed`, an answer is normalised |
| DummyProduct.Lookup | src/api/dummy-product.ts:16-26 | reading a parameter by key gives the value of its first occurrence, or nothing when the key does not occur |
| DummyProduct.GetDummyProductsEncoded | src/api/dummy-product.ts:28-39 | when the transport answers the built request with the records of a product list and a total, the call yields exactly that list and total |
| DummyProduct.DecodeAllEncoded | src/api/dummy-product.ts:37 | parsing the records of a product list gives the list back |
| App.Initial | src/App.tsx:12-15 | the first state has nothing loaded, total 0, no search text and no load in flight; it already counts as "no more data", with no rows and the end-of-data line shown |
| App.HasMore | src/App.tsx:27-30 | more rows exist only when at least two of the total are not loaded; with exactly one missing the list counts as complete |
| App.IsItemLoaded | src/App.tsx:60-62 | every loaded index counts as loaded; while more rows exist, an index counts as unloaded exactly when it is at or past the end of the loaded rows, and otherwise every index counts as loaded |
| App.AppendAllowed | src/App.tsx:75 | a load-more result is appended exactly when it has rows and the request-time list is no longer than the requested offset |
| App.ItemCount | src/App.tsx:27-35 | the row count is the number of loaded rows when no more exist and one more otherwise, and nothing else |
| App.UnloadedRowIsThePlaceholder | src/App.tsx:60-62 | within the shown rows the only unloaded index is the one just after the loaded rows, present exactly while more rows exist; with no more rows every index is loaded |
| App.Step | src/App.tsx:37-83 | only a page-1 answer changes the total; only a committed search changes the search text; apart from a page-1 answer the list only grows at its end; a load starts only by request and every completion ends it; every call asks for 20 rows |
| App.Deliver | src/App.tsx:37-83 | a load-more call always ends in `LoadOk` or `LoadFailed`; a page-1 call ends in a `SearchLoaded` or, when it fails, in nothing; the event is a success exactly when the client call succeeded, and then carries the fetched rows (and, for page 1, the fetched total) |
| App.Status | src/App.tsx:120-130 | a loading line is shown iff a load-more is in flight, reading "Searching" iff a search text is committed; the end-of-data line is shown iff there is no placeholder row |
| App.BeginLoadWhileLoadingIsNoOp | src/App.tsx:64-65 | a load request while loading changes nothing and sends nothing |
| App.BeginLoadSendsOnePlainPage | src/App.tsx:67-73 | otherwise loading starts with a request recording the start index and the list as it is now, nothing else changes, and one call is sent: plain listing endpoint, `limit` 20, `skip` the start index, no `q` |
| App.LoadMoreIgnoresSearchText | src/App.tsx:70-73 | the load-more call is the same whatever the search text |
| App.LoadOkAppendRule | src/App.tsx:75-77 | a successful load-more changes the list iff the data is non-empty and the request-time list length is at most the start index; then the old list is a prefix, the data the suffix and the length grows by the data's length; loading ends and the total is unchanged |
| App.LoadFailedOnlyClearsLoading | src/App.tsx:78-82 | a failed load-more ends loading and changes nothing else |
| App.BadRecordLeavesListUnchanged | src/App.tsx:64-83 | a load-more page with one record failing the schema is delivered as a failure, which leaves list and total unchanged and ends loading |
| App.SearchLoadedReplaces | src/App.tsx:37-58 | a page-1 answer replaces list and total wholesale and touches nothing else |
| App.SearchCommittedSendsPageOne | src/App.tsx:37-47 | a new search text sends one page-1 call (20 rows from offset 0, search endpoint with `q` when non-empty); the current text again does nothing |
| App.MountSendsTwoEqualPageOneRequests | src/App.tsx:37-58 | mounting runs both page-1 loaders, which send the same plain-listing request for 20 rows from offset 0 |
| App.SingleFlight | src/App.tsx:64-83 | along any trace, load-more calls sent (plus one if loading at the start) equal the loads ended by completions arriving while loading (plus one if loading at the end) |
| App.SingleFlightFromIdle | src/App.tsx:64-83 | from an idle state, calls sent exceed loads ended by at most one, and by exactly one iff a load is in flight at the end |
| App.RequestTimeGuard | src/App.tsx:64-83 | with a page-1 answer arriving between a load-more's start and its success, the final list is the page-1 rows, followed by the load-more rows exactly when these are non-empty and the request-time list had not reached the offset |
| App.LoadMoreFetchToState | src/App.tsx:64-83 | a load-more sent, answered, delivered and applied ends loading, keeps total and search text, and appends the fetched rows exactly when the call succeeded with rows and the list had not reached the offset |
| App.PageOneFetchToState | src/App.tsx:37-47 | a new search text whose page-1 call is answered with the records of a product list and a total ends with exactly that list and total |
| App.ListGrowsWithoutPageOne | src/App.tsx:64-83 | along a trace without page-1 answers the total is unchanged and the initial list stays a prefix |
| App.TwentyFiveMatches | src/App.tsx:27-35 | with 25 matches, page 1 leaves one placeholder at row 20, the load-more at 20 brings all 25 rows and the end-of-data line shows; 23 loaded of 25 still has more, 24 does not |
| App.SearchThenLoadMoreOutgrowsTotal | src/App.tsx:70-76 | a search with 22 matches followed by a load-more fetches from the plain listing and ends with 40 rows against a total of 22 |

## Left out

- The network call, `res.json()`, URL string concatenation and the percent-encoding of `URLSearchParams` are external library code. The transport is a parameter, the endpoint is an enumeration and `q` is an opaque string.
- The 300 ms debounce on the search box uses a timer-based library utility. Only the committed search text is modelled, as the `SearchCommitted` event.
- The model is a sequential trace of events, where each event sees the latest state. Answers are not tied to the calls that caused them: a `SearchLoaded` or a load-more completion may arrive in any order, so a stale page-1 answer landing after a newer one is part of the model. What is left out is two load-more calls started from the same render, before `loading` re-renders.
- Numbers are integers. Fractional prices and NaN are not modelled, and no arithmetic is done on them.
- The response body is taken at its declared type. `products` is absent or null (`None`) or an array, and `total` is a number. A truthy non-array `products` and a non-numeric `total` are not modelled.
- The row rendering and its placeholder row are user interface over the virtual-list library, and so is `price.toFixed(2)`. They are not part of this model. The record types file declares only the shapes of `QueryObj` and the response, which the datatypes here follow; it has no behaviour.
- ProductSchema.Decode: the issue list keeps only the field name and expected type of each problem. It does not keep the parser's messages or received-type details.
