/**
  The catalog client. A call takes an optional query object (search text,
  page size, offset), turns it into a request against the plain listing
  endpoint or the search endpoint, and turns the response body into a page of
  validated products and a total. The transport itself is a parameter: the
  model describes the request it is given and what is done with its answer.
*/
module DummyProduct {
  import opened Wrappers
  import opened ProductSchema

  /** The caller's query object; every part may be absent. */
  datatype QueryObj = QueryObj(q: Option<string>, limit: Option<int>, skip: Option<int>)

  /** Page size used when the caller gives none (or gives 0). */
  const DEFAULT_LIMIT: int := 10
  /** Offset used when the caller gives none. */
  const DEFAULT_SKIP: int := 0

  /** `/products` lists the whole catalog, `/products/search` filters it by `q`. */
  datatype Endpoint = ListEndpoint | SearchEndpoint

  datatype ParamValue = Number(n: int) | Text(text: string)

  /** One entry of the URL's query string. */
  datatype Param = Param(key: string, value: ParamValue)

  datatype Request = Request(endpoint: Endpoint, params: seq<Param>)

  /** The response body at its declared shape. `products` is `None` when the
      field is absent or null, which the client treats as "nothing found". */
  datatype Response = Response(products: Option<seq<JsonValue>>, total: int)

  datatype Page = Page(data: seq<Product>, total: int)

  /** Why a call fails: the request or the body parse was rejected, or record
      number `index` of the page failed the schema with `issues`. */
  datatype LoadError = FetchFailed | ValidationError(index: nat, issues: seq<SchemaIssue>)

  /** The page size actually requested. JavaScript's `||` replaces every falsy
      value, so an explicit 0 falls back to the default as an absent one does. */
  function EffectiveLimit(query: Option<QueryObj>): (limit: int)
    ensures limit != 0
    ensures limit == DEFAULT_LIMIT || (query.Some? && query.value.limit == Some(limit))
    ensures query.Some? && query.value.limit.Some? && query.value.limit.value != 0 ==>
              limit == query.value.limit.value
  {
    if query.Some? && query.value.limit.Some? && query.value.limit.value != 0 then query.value.limit.value
    else DEFAULT_LIMIT
  }

  /** The offset actually requested: the given one, or 0 when absent. */
  function EffectiveSkip(query: Option<QueryObj>): (skip: int)
    ensures query.Some? && query.value.skip.Some? ==> skip == query.value.skip.value
    ensures query.None? || query.value.skip.None? ==> skip == DEFAULT_SKIP
  {
    if query.Some? && query.value.skip.Some? && query.value.skip.value != 0 then query.value.skip.value
    else DEFAULT_SKIP
  }

  /** The search text, when it is present and non-empty (an empty string is falsy). */
  function SearchText(query: Option<QueryObj>): (text: Option<string>)
    ensures text.Some? ==> text.value != [] && query.Some? && query.value.q == text
    ensures text.None? ==> query.None? || query.value.q.None? || query.value.q == Some([])
  {
    if query.Some? && query.value.q.Some? && query.value.q.value != [] then query.value.q else None
  }

  /** The request the client sends for `query`. */
  function BuildRequest(query: Option<QueryObj>): (r: Request)
    // the parameters start with the page size, then the offset
    ensures |r.params| >= 2
    ensures r.params[0] == Param("limit", Number(EffectiveLimit(query)))
    ensures r.params[1] == Param("skip", Number(EffectiveSkip(query)))
    // a non-empty search text selects the search endpoint and is sent as `q`
    ensures r.endpoint == SearchEndpoint <==> (query.Some? && query.value.q.Some? && query.value.q.value != [])
    ensures r.endpoint == SearchEndpoint ==> r.params == r.params[..2] + [Param("q", Text(query.value.q.value))]
    ensures r.endpoint == ListEndpoint ==> |r.params| == 2
  {
    var params := [Param("limit", Number(EffectiveLimit(query))), Param("skip", Number(EffectiveSkip(query)))];
    match SearchText(query)
    case Some(text) => Request(SearchEndpoint, params + [Param("q", Text(text))])
    case None => Request(ListEndpoint, params)
  }

  /** The first value given for `key`, as the server reads the query string. */
  function Lookup(params: seq<Param>, key: string): (v: Option<ParamValue>)
    ensures v.Some? ==> exists i | 0 <= i < |params| ::
              params[i] == Param(key, v.value) && forall j | 0 <= j < i :: params[j].key != key
    ensures v.None? ==> forall i | 0 <= i < |params| :: params[i].key != key
  {
    if params == [] then None
    else if params[0].key == key then Some(params[0].value)
    else Lookup(params[1..], key)
  }

  /** What the server reads back from a request is exactly the effective page
      size, the effective offset and, only for a non-empty search text, `q`. */
  lemma {:induction false} RequestReadsBack(query: Option<QueryObj>)
    ensures Lookup(BuildRequest(query).params, "limit") == Some(Number(EffectiveLimit(query)))
    ensures Lookup(BuildRequest(query).params, "skip") == Some(Number(EffectiveSkip(query)))
    ensures Lookup(BuildRequest(query).params, "q") == (match SearchText(query)
                                                        case Some(t) => Some(Text(t))
                                                        case None => None)
  {
    var ps := BuildRequest(query).params;
    assert ps[1..][1..] == ps[2..];
    if SearchText(query).Some? {
      assert ps[2..][0] == Param("q", Text(SearchText(query).value));
    } else {
      assert ps[2..] == [];
    }
  }

  /** Defaulting is idempotent: a query whose parts are already the effective
      ones produces the same request. */
  lemma DefaultingIdempotent(query: Option<QueryObj>)
    ensures BuildRequest(Some(QueryObj(SearchText(query), Some(EffectiveLimit(query)), Some(EffectiveSkip(query)))))
            == BuildRequest(query)
  {
  }

  /** Parses every record of a page, in order. Like mapping a throwing parser,
      it stops at the first record that fails and reports its position. */
  function DecodeAll(records: seq<JsonValue>): (r: Result<seq<Product>, LoadError>)
    ensures r.Success? <==> forall i | 0 <= i < |records| :: Decode(records[i]).Success?
    ensures r.Success? ==> |r.value| == |records|
    ensures r.Success? ==> forall i | 0 <= i < |records| :: Decode(records[i]) == Success(r.value[i])
    ensures r.Failure? ==>
      && r.error.ValidationError?
      && r.error.index < |records|
      && Decode(records[r.error.index]) == Failure(r.error.issues)
      && forall i | 0 <= i < r.error.index :: Decode(records[i]).Success?
  {
    if records == [] then Success([])
    else
      match Decode(records[0])
      case Failure(issues) => Failure(ValidationError(0, issues))
      case Success(p) =>
        match DecodeAll(records[1..])
        case Success(ps) => Success([p] + ps)
        case Failure(e) => Failure(ValidationError(e.index + 1, e.issues))
  }

  /** Turns a response body into a page. */
  function Normalise(body: Response): (r: Result<Page, LoadError>)
    // no `products` field: an empty page with total 0, not an error
    ensures body.products.None? ==> r == Success(Page([], 0))
    // otherwise the page is the records parsed in order, with the total passed through
    ensures body.products.Some? && r.Success? ==>
      && r.value.total == body.total
      && |r.value.data| == |body.products.value|
      && forall i | 0 <= i < |r.value.data| :: Decode(body.products.value[i]) == Success(r.value.data[i])
    // one bad record fails the whole page
    ensures body.products.Some? ==>
      (r.Failure? <==> exists i | 0 <= i < |body.products.value| :: Decode(body.products.value[i]).Failure?)
    ensures r.Failure? ==> r.error.ValidationError?
  {
    match body.products
    case None => Success(Page([], 0))
    case Some(records) =>
      match DecodeAll(records)
      case Success(data) => Success(Page(data, body.total))
      case Failure(e) => Failure(e)
  }

  /** One call of the client: send `BuildRequest(query)` through `transport`
      (whose `None` is a rejected request or unreadable body) and normalise
      the answer. */
  function GetDummyProducts(query: Option<QueryObj>, transport: Request -> Option<Response>): (r: Result<Page, LoadError>)
    ensures transport(BuildRequest(query)).None? ==> r == Failure(FetchFailed)
    ensures transport(BuildRequest(query)).Some? ==> r == Normalise(transport(BuildRequest(query)).value)
  {
    match transport(BuildRequest(query))
    case None => Failure(FetchFailed)
    case Some(body) => Normalise(body)
  }

  /** The records a list of products is parsed from, in order. */
  function EncodeAll(ps: seq<Product>): (records: seq<JsonValue>)
    ensures |records| == |ps|
  {
    if ps == [] then [] else [Encode(ps[0])] + EncodeAll(ps[1..])
  }

  /** Parsing the records of a list of products gives the list back. */
  lemma {:induction false} DecodeAllEncoded(ps: seq<Product>)
    ensures DecodeAll(EncodeAll(ps)) == Success(ps)
  {
    if ps != [] {
      DecodeEncode(ps[0]);
      DecodeAllEncoded(ps[1..]);
      assert EncodeAll(ps)[0] == Encode(ps[0]);
      assert EncodeAll(ps)[1..] == EncodeAll(ps[1..]);
      assert [ps[0]] + ps[1..] == ps;
    }
  }

  /** A whole call, end to end: when the transport answers the built request
      with the records of `ps` and a total, the call yields exactly `ps` and
      that total. */
  lemma GetDummyProductsEncoded(query: Option<QueryObj>, transport: Request -> Option<Response>,
                                ps: seq<Product>, total: int)
    requires transport(BuildRequest(query))
             == Some(Response(Some(EncodeAll(ps)), total))
    ensures GetDummyProducts(query, transport) == Success(Page(ps, total))
  {
    DecodeAllEncoded(ps);
  }
}
