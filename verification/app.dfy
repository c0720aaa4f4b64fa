/**
  The windowed list controller of the catalog widget. Its state is the loaded
  product list, the total reported by the last page-1 load, the committed
  search text and the load-more request in flight, if any (the widget's
  `loading` flag is exactly "a request is in flight"). Everything that happens
  to it is an event; `Step` gives the next state and the catalog calls the
  event starts.
*/
module App {
  import opened Wrappers
  import opened ProductSchema
  import opened DummyProduct

  /** Rows requested per page. */
  const PAGE_SIZE: int := 20

  /** A load-more call in flight: the offset it asked for and the product list
      as it was when the call started (the append guard reads that list). */
  datatype LoadRequest = LoadRequest(startIndex: nat, snapshot: seq<Product>)

  datatype State = State(products: seq<Product>, total: int, searchStr: string, inFlight: Option<LoadRequest>)

  /** The state on first render: nothing loaded, total 0, no search text and
      no load in flight. Since 0 + 1 < 0 fails, the first render already
      counts as "no more data", with no rows and the end-of-data line shown. */
  function Initial(): (s: State)
    ensures s.products == [] && s.total == 0 && s.searchStr == "" && !Loading(s)
    ensures !HasMore(s) && ItemCount(s) == 0 && Status(s).noMoreNotice && Status(s).loadingNotice.None?
  {
    State([], 0, "", None)
  }

  predicate Loading(s: State) {
    s.inFlight.Some?
  }

  /** More rows exist on the server. The comparison keeps a one-row margin: it
      is `|products| + 1 < total`, so when exactly one row of the total is still
      missing the list already counts as complete and that row is not asked for. */
  predicate HasMore(s: State)
    ensures HasMore(s) ==> |s.products| <= s.total - 2
    ensures !HasMore(s) && |s.products| < s.total ==> |s.products| == s.total - 1
  {
    |s.products| + 1 < s.total
  }

  /** The row count given to the virtual list: one placeholder row beyond the
      loaded ones while more rows exist. */
  function ItemCount(s: State): (n: nat)
    ensures n == |s.products| || n == |s.products| + 1
    ensures n == |s.products| <==> !HasMore(s)
  {
    if !HasMore(s) then |s.products| else |s.products| + 1
  }

  /** The virtual list asks for rows this says are not loaded. Once no more rows
      exist every index counts as loaded. */
  predicate IsItemLoaded(s: State, index: int)
    ensures 0 <= index < |s.products| ==> IsItemLoaded(s, index)
    ensures !IsItemLoaded(s, index) ==> |s.products| <= index && HasMore(s)
    ensures HasMore(s) && |s.products| <= index ==> !IsItemLoaded(s, index)
  {
    !HasMore(s) || index < |s.products|
  }

  /** Among the rows the virtual list shows, the only one that is not loaded is
      the placeholder just after the loaded rows, and it is shown exactly while
      more rows exist. */
  lemma UnloadedRowIsThePlaceholder(s: State)
    ensures forall i | 0 <= i < ItemCount(s) :: !IsItemLoaded(s, i) <==> i == |s.products|
    ensures HasMore(s) <==> (|s.products| < ItemCount(s) && !IsItemLoaded(s, |s.products|))
    ensures !HasMore(s) ==> forall i :: IsItemLoaded(s, i)
  {
  }

  /** Which loader started a catalog call: the page-1 loader run on mount, the
      page-1 loader run on every committed search text, or a load-more. */
  datatype Origin = MountLoader | SearchLoader | LoadMoreLoader

  datatype Fetch = Fetch(origin: Origin, query: QueryObj)

  /** What happens to the widget. `SearchLoaded` is the answer of either page-1
      loader; `LoadOk` and `LoadFailed` are the two ends of a load-more call. */
  datatype Event =
    | Mount
    | SearchCommitted(term: string)
    | SearchLoaded(data: seq<Product>, total: int)
    | BeginLoad(startIndex: nat)
    | LoadOk(data: seq<Product>)
    | LoadFailed

  datatype Transition = Transition(state: State, fetches: seq<Fetch>)

  /** The page-1 query; the mount loader sends no search text at all. */
  function PageOneQuery(q: Option<string>): QueryObj {
    QueryObj(q, Some(PAGE_SIZE), Some(0))
  }

  /** The load-more query: the offset asked for, and no search text. */
  function LoadMoreQuery(startIndex: nat): QueryObj {
    QueryObj(None, Some(PAGE_SIZE), Some(startIndex))
  }

  /** A load-more result is appended only when it has rows and the list, as it
      was when the call started, did not already reach the requested offset. */
  predicate AppendAllowed(req: LoadRequest, data: seq<Product>)
    ensures AppendAllowed(req, data) ==> data != [] && req.startIndex >= |req.snapshot|
    ensures data != [] && |req.snapshot| <= req.startIndex ==> AppendAllowed(req, data)
  {
    |data| > 0 && |req.snapshot| <= req.startIndex
  }

  function Step(s: State, e: Event): (t: Transition)
    // only a page-1 answer changes the total
    ensures t.state.total != s.total ==> e.SearchLoaded?
    // only a committed search text changes the search text
    ensures t.state.searchStr != s.searchStr ==> e == SearchCommitted(t.state.searchStr)
    // except for a page-1 answer, the loaded list only grows at its end
    ensures !e.SearchLoaded? ==> s.products <= t.state.products
    ensures t.state.products != s.products ==> e.SearchLoaded? || e.LoadOk?
    // a load starts only on request, and every completion ends it
    ensures Loading(t.state) && !Loading(s) ==> e.BeginLoad?
    ensures e.LoadOk? || e.LoadFailed? ==> !Loading(t.state)
    // every catalog call asks for a full page
    ensures forall i | 0 <= i < |t.fetches| :: t.fetches[i].query.limit == Some(PAGE_SIZE)
  {
    match e
    case Mount =>
      Transition(s, [Fetch(SearchLoader, PageOneQuery(Some(s.searchStr))), Fetch(MountLoader, PageOneQuery(None))])
    case SearchCommitted(term) =>
      if term == s.searchStr then Transition(s, [])
      else Transition(s.(searchStr := term), [Fetch(SearchLoader, PageOneQuery(Some(term)))])
    case SearchLoaded(data, total) =>
      Transition(s.(products := data, total := total), [])
    case BeginLoad(startIndex) =>
      if Loading(s) then Transition(s, [])
      else Transition(s.(inFlight := Some(LoadRequest(startIndex, s.products))),
                      [Fetch(LoadMoreLoader, LoadMoreQuery(startIndex))])
    case LoadOk(data) =>
      (match s.inFlight
       case None => Transition(s, [])
       case Some(req) =>
         var products := if AppendAllowed(req, data) then s.products + data else s.products;
         Transition(s.(products := products, inFlight := None), []))
    case LoadFailed =>
      Transition(s.(inFlight := None), [])
  }

  /** The event a finished catalog call delivers. A failed page-1 call delivers
      nothing: its rejection escapes and the state stays as it was. */
  function Deliver(f: Fetch, transport: Request -> Option<Response>): (e: Option<Event>)
    ensures f.origin == LoadMoreLoader ==> e.Some? && (e.value.LoadOk? || e.value == LoadFailed)
    ensures f.origin != LoadMoreLoader ==> e.None? || e.value.SearchLoaded?
    ensures e.Some? && e.value != LoadFailed <==> GetDummyProducts(Some(f.query), transport).Success?
    // a successful call delivers the fetched page itself
    ensures var result := GetDummyProducts(Some(f.query), transport);
      result.Success? && f.origin == LoadMoreLoader ==> e == Some(LoadOk(result.value.data))
    ensures var result := GetDummyProducts(Some(f.query), transport);
      result.Success? && f.origin != LoadMoreLoader ==> e == Some(SearchLoaded(result.value.data, result.value.total))
  {
    var result := GetDummyProducts(Some(f.query), transport);
    match f.origin
    case LoadMoreLoader =>
      (match result
       case Success(page) => Some(LoadOk(page.data))
       case Failure(_) => Some(LoadFailed))
    case _ =>
      (match result
       case Success(page) => Some(SearchLoaded(page.data, page.total))
       case Failure(_) => None)
  }

  /** The status lines below the list. */
  datatype LoadingNotice = Searching | LoadingMore
  datatype StatusLine = StatusLine(loadingNotice: Option<LoadingNotice>, noMoreNotice: bool)

  function Status(s: State): (st: StatusLine)
    // a loading line is shown exactly while a load-more call is in flight;
    // it reads "Searching" whenever a search text is committed
    ensures st.loadingNotice.Some? <==> s.inFlight.Some?
    ensures st.loadingNotice == Some(Searching) <==> s.inFlight.Some? && |s.searchStr| > 0
    // the end-of-data line is shown exactly when no placeholder row is
    ensures st.noMoreNotice <==> ItemCount(s) == |s.products|
  {
    StatusLine(if Loading(s) then Some(if s.searchStr != "" then Searching else LoadingMore) else None,
               !HasMore(s))
  }

  // ---------------------------------------------------------------------------
  // Single events

  /** Asking for more rows while a load is in flight does nothing and sends nothing. */
  lemma BeginLoadWhileLoadingIsNoOp(s: State, startIndex: nat)
    requires Loading(s)
    ensures Step(s, BeginLoad(startIndex)) == Transition(s, [])
  {
  }

  /** Otherwise exactly one call is sent, for a page of 20 rows at the requested
      offset on the plain listing endpoint (whatever the search text is), and
      nothing but the in-flight request changes. */
  lemma BeginLoadSendsOnePlainPage(s: State, startIndex: nat)
    requires !Loading(s)
    ensures var t := Step(s, BeginLoad(startIndex));
      && t.state == s.(inFlight := Some(LoadRequest(startIndex, s.products)))
      && |t.fetches| == 1 && t.fetches[0].origin == LoadMoreLoader
      && BuildRequest(Some(t.fetches[0].query))
         == Request(ListEndpoint, [Param("limit", Number(PAGE_SIZE)), Param("skip", Number(startIndex))])
  {
  }

  /** The load-more call does not depend on the search text. */
  lemma LoadMoreIgnoresSearchText(s: State, term: string, startIndex: nat)
    requires !Loading(s)
    ensures Step(s, BeginLoad(startIndex)).fetches == Step(s.(searchStr := term), BeginLoad(startIndex)).fetches
  {
  }

  /** A successful load-more appends its rows exactly when they are non-empty
      and the list at request time had not reached the requested offset; an
      append keeps the existing rows as a prefix. The total never changes. */
  lemma LoadOkAppendRule(s: State, data: seq<Product>)
    requires Loading(s)
    ensures var t := Step(s, LoadOk(data)); var req := s.inFlight.value;
      && !Loading(t.state)
      && t.state.total == s.total
      && (t.state.products != s.products <==> |data| > 0 && |req.snapshot| <= req.startIndex)
      && (t.state.products != s.products ==>
            |t.state.products| == |s.products| + |data|
            && t.state.products[..|s.products|] == s.products
            && t.state.products[|s.products|..] == data)
  {
    var t := Step(s, LoadOk(data));
    if AppendAllowed(s.inFlight.value, data) {
      assert t.state.products[..|s.products|] == s.products;
      assert |t.state.products| != |s.products|;
    }
  }

  /** A failed load-more only clears the in-flight request. */
  lemma LoadFailedOnlyClearsLoading(s: State)
    ensures Step(s, LoadFailed) == Transition(State(s.products, s.total, s.searchStr, None), [])
  {
  }

  /** A page-1 answer replaces the list and the total wholesale. */
  lemma SearchLoadedReplaces(s: State, data: seq<Product>, total: int)
    ensures var t := Step(s, SearchLoaded(data, total));
      t.state == State(data, total, s.searchStr, s.inFlight) && t.fetches == []
  {
  }

  /** Committing a new search text sends one page-1 call: 20 rows from offset 0,
      on the search endpoint with `q` when the text is non-empty, on the plain
      listing endpoint otherwise. Committing the current text does nothing. */
  lemma SearchCommittedSendsPageOne(s: State, term: string)
    ensures term == s.searchStr ==> Step(s, SearchCommitted(term)) == Transition(s, [])
    ensures term != s.searchStr ==>
      var t := Step(s, SearchCommitted(term));
      && t.state == s.(searchStr := term)
      && |t.fetches| == 1 && t.fetches[0].origin == SearchLoader
      && BuildRequest(Some(t.fetches[0].query))
         == if term == "" then Request(ListEndpoint, [Param("limit", Number(PAGE_SIZE)), Param("skip", Number(0))])
            else Request(SearchEndpoint, [Param("limit", Number(PAGE_SIZE)), Param("skip", Number(0)), Param("q", Text(term))])
  {
  }

  /** On mount both page-1 loaders run; with no search text committed yet they
      send the very same request. */
  lemma MountSendsTwoEqualPageOneRequests()
    ensures var t := Step(Initial(), Mount);
      && t.state == Initial()
      && |t.fetches| == 2
      && t.fetches[0].origin == SearchLoader && t.fetches[1].origin == MountLoader
      && BuildRequest(Some(t.fetches[0].query)) == BuildRequest(Some(t.fetches[1].query))
         == Request(ListEndpoint, [Param("limit", Number(PAGE_SIZE)), Param("skip", Number(0))])
  {
  }

  /** A load-more page with a record that fails the schema changes nothing but
      the loading flag. */
  lemma BadRecordLeavesListUnchanged(s: State, startIndex: nat, transport: Request -> Option<Response>,
                                     records: seq<JsonValue>, total: int, k: nat)
    requires Loading(s)
    requires transport(BuildRequest(Some(LoadMoreQuery(startIndex)))) == Some(Response(Some(records), total))
    requires k < |records| && Decode(records[k]).Failure?
    ensures Deliver(Fetch(LoadMoreLoader, LoadMoreQuery(startIndex)), transport) == Some(LoadFailed)
    ensures Step(s, LoadFailed).state == s.(inFlight := None)
  {
  }

  // ---------------------------------------------------------------------------
  // Event traces

  /** Runs a trace of events, collecting the calls they send. */
  function Run(s: State, events: seq<Event>): (t: Transition)
    decreases |events|
  {
    if events == [] then Transition(s, [])
    else
      var first := Step(s, events[0]);
      var rest := Run(first.state, events[1..]);
      Transition(rest.state, first.fetches + rest.fetches)
  }

  function LoadMoreCount(fetches: seq<Fetch>): nat {
    if fetches == [] then 0
    else (if fetches[0].origin == LoadMoreLoader then 1 else 0) + LoadMoreCount(fetches[1..])
  }

  /** The load-more calls a trace ends: completions that arrive while a load is
      in flight (a completion arriving while idle ends nothing). */
  function EndedLoads(s: State, events: seq<Event>): nat
    decreases |events|
  {
    if events == [] then 0
    else (if Loading(s) && (events[0].LoadOk? || events[0].LoadFailed?) then 1 else 0)
         + EndedLoads(Step(s, events[0]).state, events[1..])
  }

  lemma {:induction false} LoadMoreCountAppend(a: seq<Fetch>, b: seq<Fetch>)
    ensures LoadMoreCount(a + b) == LoadMoreCount(a) + LoadMoreCount(b)
    decreases |a|
  {
    if a == [] {
      assert a + b == b;
    } else {
      assert (a + b)[1..] == a[1..] + b;
      LoadMoreCountAppend(a[1..], b);
    }
  }

  /** Single flight: along any trace, the load-more calls sent (plus one if a
      load was in flight at the start) are exactly the loads ended (plus one if
      a load is in flight at the end). Calls sent minus calls ended is thus at
      most one, for the trace and for each of its prefixes. */
  lemma {:induction false} SingleFlight(s: State, events: seq<Event>)
    ensures LoadMoreCount(Run(s, events).fetches) + (if Loading(s) then 1 else 0)
            == EndedLoads(s, events) + (if Loading(Run(s, events).state) then 1 else 0)
    decreases |events|
  {
    if events != [] {
      var first := Step(s, events[0]);
      SingleFlight(first.state, events[1..]);
      LoadMoreCountAppend(first.fetches, Run(first.state, events[1..]).fetches);
    }
  }

  /** Consequently a trace started with no load in flight has sent at most one
      load-more call it has not ended, and exactly one when it ends loading. */
  lemma SingleFlightFromIdle(s: State, events: seq<Event>)
    requires !Loading(s)
    ensures LoadMoreCount(Run(s, events).fetches) <= EndedLoads(s, events) + 1
    ensures LoadMoreCount(Run(s, events).fetches) == EndedLoads(s, events) + 1 <==> Loading(Run(s, events).state)
  {
    SingleFlight(s, events);
  }

  /** Along a trace without page-1 answers the total stays put and the loaded
      list only grows at its end. */
  lemma {:induction false} ListGrowsWithoutPageOne(s: State, events: seq<Event>)
    requires forall i | 0 <= i < |events| :: !events[i].SearchLoaded?
    ensures s.products <= Run(s, events).state.products
    ensures Run(s, events).state.total == s.total
    decreases |events|
  {
    if events != [] {
      var first := Step(s, events[0]);
      ListGrowsWithoutPageOne(first.state, events[1..]);
    }
  }

  /** The append guard reads the list as it was when the load-more started,
      while the append extends the latest list: a page-1 answer arriving in
      between replaces the list, and the load-more rows are then appended to
      the new list exactly when the old list had not reached the offset. */
  lemma RequestTimeGuard(s: State, startIndex: nat, d: seq<Product>, total: int, data: seq<Product>)
    requires !Loading(s)
    ensures var final := Run(s, [BeginLoad(startIndex), SearchLoaded(d, total), LoadOk(data)]).state;
      && final.products == (if |data| > 0 && |s.products| <= startIndex then d + data else d)
      && final.total == total && !Loading(final)
  {
    var s1 := Step(s, BeginLoad(startIndex)).state;
    var s2 := Step(s1, SearchLoaded(d, total)).state;
    var evs := [BeginLoad(startIndex), SearchLoaded(d, total), LoadOk(data)];
    assert evs[1..] == [SearchLoaded(d, total), LoadOk(data)];
    assert evs[1..][1..] == [LoadOk(data)];
    assert evs[1..][1..][1..] == [];
    var s3 := Step(s2, LoadOk(data)).state;
    assert Run(s2, evs[1..][1..]).state == Run(s3, []).state == s3;
    assert Run(s1, evs[1..]).state == Run(s2, evs[1..][1..]).state;
    assert Run(s, evs).state == Run(s1, evs[1..]).state;
  }

  /** A load-more from request to state: the call sent for `startIndex` is
      answered by the transport, delivered and applied. Loading ends, the total
      stays, and the list gains the fetched rows exactly when the call succeeded
      with rows and the list had not reached the offset; otherwise it is as it was. */
  lemma LoadMoreFetchToState(s: State, startIndex: nat, transport: Request -> Option<Response>)
    requires !Loading(s)
    ensures var t := Step(s, BeginLoad(startIndex));
      && |t.fetches| == 1
      && var e := Deliver(t.fetches[0], transport);
      && e.Some?
      && var final := Step(t.state, e.value).state;
      && var result := GetDummyProducts(Some(LoadMoreQuery(startIndex)), transport);
      && !Loading(final) && final.total == s.total && final.searchStr == s.searchStr
      && final.products == (if result.Success? && |result.value.data| > 0 && |s.products| <= startIndex
                            then s.products + result.value.data else s.products)
  {
  }

  /** A page-1 load from request to state: committing a new search text sends
      the page-1 call; when the transport answers it with the records of `ps`
      and a total, the delivered answer makes `ps` the list and that total the
      total. */
  lemma PageOneFetchToState(s: State, term: string, transport: Request -> Option<Response>,
                            ps: seq<Product>, total: int)
    requires term != s.searchStr
    requires transport(BuildRequest(Some(PageOneQuery(Some(term)))))
             == Some(Response(Some(EncodeAll(ps)), total))
    ensures var t := Step(s, SearchCommitted(term));
      && |t.fetches| == 1
      && var e := Deliver(t.fetches[0], transport);
      && e.Some?
      && Step(t.state, e.value).state == State(ps, total, term, s.inFlight)
  {
    GetDummyProductsEncoded(Some(PageOneQuery(Some(term))), transport, ps, total);
  }

  // ---------------------------------------------------------------------------
  // Scenarios

  function Row(i: int): Product {
    Product(i, "", "", 0, "")
  }

  function Rows(from: int, count: nat): (rows: seq<Product>)
    ensures |rows| == count
  {
    seq(count, i => Row(from + i))
  }

  /** With 25 matches: the first page of 20 leaves one placeholder row; the
      load-more at offset 20 brings the last 5, after which nothing more is
      asked for. The one-row margin means 23 loaded rows still count as
      "more", while 24 already count as "no more". */
  lemma TwentyFiveMatches()
    ensures var s1 := Step(Initial(), SearchLoaded(Rows(0, 20), 25)).state;
      && HasMore(s1) && ItemCount(s1) == 21 && !IsItemLoaded(s1, 20)
      && var t2 := Step(s1, BeginLoad(20));
      && t2.fetches == [Fetch(LoadMoreLoader, LoadMoreQuery(20))]
      && var s3 := Step(t2.state, LoadOk(Rows(20, 5))).state;
      && s3.products == Rows(0, 25) && !Loading(s3)
      && !HasMore(s3) && ItemCount(s3) == 25 && Status(s3).noMoreNotice
    ensures HasMore(Initial().(products := Rows(0, 23), total := 25))
    ensures !HasMore(Initial().(products := Rows(0, 24), total := 25))
  {
    var s3 := Step(Step(Step(Initial(), SearchLoaded(Rows(0, 20), 25)).state, BeginLoad(20)).state, LoadOk(Rows(20, 5))).state;
    assert s3.products == Rows(0, 25);
  }

  /** The loaded list can outgrow the total: a search with 22 matches loads 20,
      and the load-more for row 20 goes to the plain listing endpoint, whose
      next page is appended to the search results. */
  lemma SearchThenLoadMoreOutgrowsTotal()
    ensures var s1 := Step(Initial(), SearchCommitted("phone")).state;
      && var s2 := Step(s1, SearchLoaded(Rows(0, 20), 22)).state;
      && HasMore(s2) && !IsItemLoaded(s2, 20)
      && var t3 := Step(s2, BeginLoad(20));
      && BuildRequest(Some(t3.fetches[0].query)).endpoint == ListEndpoint
      && var s4 := Step(t3.state, LoadOk(Rows(100, 20))).state;
      && s4.searchStr == "phone"
      && |s4.products| == 40 > s4.total
  {
  }
}
