/**
 * Retrieval of pulses from the OTXv2 API (`_get` and `iter_pulses` in
 * scripts/zeek-otx.py). The HTTP service is a function from request to
 * response; JSON decoding is assumed to give a page of pulses and a `next`
 * link.
 */
module Fetch {
  import opened Wrappers
  import opened Records

  /** The subscribed-pulses endpoint of the first request. */
  const Endpoint: string := "http://otx.alienvault.com/api/v1/pulses/subscribed"

  /** The page size `iter_pulses` asks for when none is given. */
  const DefaultLimit: int := 20

  const InvalidKeyMessage: string := "An invalid API key was specified."
  const InvalidRequestMessage: string := "An invalid request was made."

  /** The query parameters of the first request. */
  datatype Query = Query(limit: int, modifiedSince: string)

  /** An HTTP GET: the URL, the `X-OTX-API-KEY` header and, on the first request only, a query. */
  datatype Request = Request(url: string, apiKey: string, query: Option<Query>)

  /** A decoded 200 body: the page's pulses and the `next` link (`None` for JSON null). */
  datatype Page = Page(results: seq<Pulse>, next: Option<string>)

  /** A response: its status code and the body, which only a 200 response has read. */
  datatype Response = Response(status: int, body: Page)

  /** The remote service. */
  type Api = Request -> Response

  /** What `_get` does with a response: return the body, exit the process, or return nothing. */
  datatype GetResult = Body(page: Page) | Exit(code: int, message: string) | NoValue

  /** Why the pulse stream ended. */
  datatype Stop =
    | Exhausted                          // a page's `next` was empty or null
    | Exited(code: int, message: string) // `_get` called sys.exit
    | Crashed                            // `_get` returned None and the caller indexed it

  /** The requests made, the pages received and how the stream ended. */
  datatype Trace = Trace(requests: seq<Request>, pages: seq<Page>, stop: Stop)

  /** The request `_get` sends: the first one with a query, a continuation without. */
  function MakeRequest(key: string, mtime: string, limit: int, nextRequest: string): (r: Request)
    ensures r.apiKey == key
    ensures r.query.Some? <==> nextRequest == ""
    ensures nextRequest == "" ==> r.url == Endpoint && r.query == Some(Query(limit, mtime))
    ensures nextRequest != "" ==> r.url == nextRequest
  {
    if nextRequest == "" then Request(Endpoint, key, Some(Query(limit, mtime)))
    else Request(nextRequest, key, None)
  }

  /** The status dispatch of `_get`. */
  function Dispatch(resp: Response): (r: GetResult)
    ensures r.Body? <==> resp.status == 200
    ensures r.Body? ==> r.page == resp.body
    ensures r == Exit(1, InvalidKeyMessage) <==> resp.status == 403
    ensures r == Exit(1, InvalidRequestMessage) <==> resp.status == 400
    ensures r.NoValue? <==> resp.status !in {200, 403, 400}
  {
    if resp.status == 200 then Body(resp.body)
    else if resp.status == 403 then Exit(1, InvalidKeyMessage)
    else if resp.status == 400 then Exit(1, InvalidRequestMessage)
    else NoValue
  }

  /** `while next_request:`: a `next` that is neither null nor empty. */
  predicate Truthy(next: Option<string>)
  {
    next.Some? && next.value != ""
  }

  /** The request for a continuation link. */
  function Continue(key: string, mtime: string, next: Option<string>): Request
    requires Truthy(next)
  {
    MakeRequest(key, mtime, DefaultLimit, next.value)
  }

  /** Following `next` from here ends within `bound` more pages. */
  predicate ChainEnds(api: Api, key: string, mtime: string, next: Option<string>, bound: nat)
    decreases bound
  {
    !Truthy(next) ||
    (bound > 0 &&
     match Dispatch(api(Continue(key, mtime, next)))
     case Body(page) => ChainEnds(api, key, mtime, page.next, bound - 1)
     case _ => true)
  }

  /** The loop of `iter_pulses` from a `next` link: one request per page until `next` is falsy. */
  function Follow(api: Api, key: string, mtime: string, next: Option<string>, bound: nat): Trace
    requires ChainEnds(api, key, mtime, next, bound)
    decreases bound
  {
    if !Truthy(next) then Trace([], [], Exhausted)
    else
      var req := Continue(key, mtime, next);
      match Dispatch(api(req))
      case Body(page) =>
        var rest := Follow(api, key, mtime, page.next, bound - 1);
        Trace([req] + rest.requests, [page] + rest.pages, rest.stop)
      case Exit(code, message) => Trace([req], [], Exited(code, message))
      case NoValue => Trace([req], [], Crashed)
  }

  /** The first request of `iter_pulses`. */
  function FirstRequest(key: string, mtime: string, limit: int): Request
  {
    MakeRequest(key, mtime, limit, "")
  }

  /** The pagination of `iter_pulses` ends within `bound` continuation pages. */
  predicate PagesEnd(api: Api, key: string, mtime: string, limit: int, bound: nat)
  {
    match Dispatch(api(FirstRequest(key, mtime, limit)))
    case Body(page) => ChainEnds(api, key, mtime, page.next, bound)
    case _ => true
  }

  /** Everything `iter_pulses` does: the first page, then the continuation pages. */
  function IterTrace(api: Api, key: string, mtime: string, limit: int, bound: nat): Trace
    requires PagesEnd(api, key, mtime, limit, bound)
  {
    var req := FirstRequest(key, mtime, limit);
    match Dispatch(api(req))
    case Body(page) =>
      var rest := Follow(api, key, mtime, page.next, bound);
      Trace([req] + rest.requests, [page] + rest.pages, rest.stop)
    case Exit(code, message) => Trace([req], [], Exited(code, message))
    case NoValue => Trace([req], [], Crashed)
  }

  /** The pulses of a run of pages, page after page. */
  function Results(pages: seq<Page>): seq<Pulse>
  {
    if pages == [] then [] else pages[0].results + Results(pages[1..])
  }

  lemma {:induction false} ResultsAppend(a: seq<Page>, b: seq<Page>)
    ensures Results(a + b) == Results(a) + Results(b)
  {
    if a == [] {
      assert a + b == b;
    } else {
      assert (a + b)[1..] == a[1..] + b;
      ResultsAppend(a[1..], b);
    }
  }

  /** How much bound is given does not matter once it is enough. */
  lemma {:induction false} FollowBoundIrrelevant(api: Api, key: string, mtime: string, next: Option<string>, b1: nat, b2: nat)
    requires ChainEnds(api, key, mtime, next, b1) && ChainEnds(api, key, mtime, next, b2)
    ensures Follow(api, key, mtime, next, b1) == Follow(api, key, mtime, next, b2)
    decreases b1
  {
    if Truthy(next) {
      match Dispatch(api(Continue(key, mtime, next)))
      case Body(page) => FollowBoundIrrelevant(api, key, mtime, page.next, b1 - 1, b2 - 1);
      case _ =>
    }
  }

  /** The whole stream, too, is the same for every sufficient bound. */
  lemma IterTraceBoundIrrelevant(api: Api, key: string, mtime: string, limit: int, b1: nat, b2: nat)
    requires PagesEnd(api, key, mtime, limit, b1) && PagesEnd(api, key, mtime, limit, b2)
    ensures IterTrace(api, key, mtime, limit, b1) == IterTrace(api, key, mtime, limit, b2)
  {
    match Dispatch(api(FirstRequest(key, mtime, limit)))
    case Body(page) => FollowBoundIrrelevant(api, key, mtime, page.next, b1, b2);
    case _ =>
  }

  /** One request per page, plus the failed one when the stream did not run out. */
  ghost predicate Counted(t: Trace)
  {
    |t.requests| == |t.pages| + (if t.stop == Exhausted then 0 else 1)
  }

  /** Every page is the body of a 200 response to the request at the same position. */
  ghost predicate Answered(api: Api, t: Trace)
  {
    && |t.pages| <= |t.requests|
    && forall k :: 0 <= k < |t.pages| ==> api(t.requests[k]) == Response(200, t.pages[k])
  }

  /** Every request after the first follows the previous page's truthy `next` link, with only the key. */
  ghost predicate Linked(key: string, t: Trace)
  {
    && |t.requests| <= |t.pages| + 1
    && forall k :: 0 <= k < |t.requests| - 1 ==>
      Truthy(t.pages[k].next) && t.requests[k + 1] == Request(t.pages[k].next.value, key, None)
  }

  /** Why the stream stopped: a falsy `next`, a 403 or 400 (exit code 1), or any other status. */
  ghost predicate Explained(api: Api, t: Trace)
  {
    && (t.stop == Exhausted && |t.pages| > 0 ==> !Truthy(t.pages[|t.pages| - 1].next))
    && (t.stop.Exited? ==>
          && |t.requests| > 0
          && t.stop.code == 1
          && api(t.requests[|t.requests| - 1]).status in {403, 400}
          && t.stop == Exited(1, if api(t.requests[|t.requests| - 1]).status == 403
                                 then InvalidKeyMessage else InvalidRequestMessage))
    && (t.stop == Crashed ==> |t.requests| > 0 && api(t.requests[|t.requests| - 1]).status !in {200, 403, 400})
  }

  /** The requests and pages of a trace chain together as the pagination loop demands. */
  ghost predicate Chained(api: Api, key: string, mtime: string, t: Trace)
  {
    Counted(t) && Answered(api, t) && Linked(key, t) && Explained(api, t)
  }

  lemma ConsAnswered(api: Api, req: Request, page: Page, rest: Trace)
    requires Answered(api, rest)
    requires api(req) == Response(200, page)
    ensures Answered(api, Trace([req] + rest.requests, [page] + rest.pages, rest.stop))
  {
    var t := Trace([req] + rest.requests, [page] + rest.pages, rest.stop);
    forall k | 0 <= k < |t.pages| ensures api(t.requests[k]) == Response(200, t.pages[k]) {
      if k > 0 {
        assert t.requests[k] == rest.requests[k - 1];
        assert t.pages[k] == rest.pages[k - 1];
      }
    }
  }

  lemma ConsLinked(key: string, page: Page, req: Request, rest: Trace)
    requires Counted(rest) && Linked(key, rest)
    requires !Truthy(page.next) ==> rest.requests == []
    requires Truthy(page.next) ==> |rest.requests| >= 1 && rest.requests[0] == Request(page.next.value, key, None)
    ensures Linked(key, Trace([req] + rest.requests, [page] + rest.pages, rest.stop))
  {
    var t := Trace([req] + rest.requests, [page] + rest.pages, rest.stop);
    forall k | 0 <= k < |t.requests| - 1
      ensures Truthy(t.pages[k].next) && t.requests[k + 1] == Request(t.pages[k].next.value, key, None)
    {
      assert t.requests[k + 1] == rest.requests[k];
      if k > 0 {
        assert t.pages[k] == rest.pages[k - 1];
      }
    }
  }

  lemma ConsExplained(api: Api, page: Page, req: Request, rest: Trace)
    requires Counted(rest) && Explained(api, rest)
    requires !Truthy(page.next) ==> rest == Trace([], [], Exhausted)
    requires Truthy(page.next) ==> |rest.requests| >= 1
    ensures Explained(api, Trace([req] + rest.requests, [page] + rest.pages, rest.stop))
  {
    var t := Trace([req] + rest.requests, [page] + rest.pages, rest.stop);
    if rest.requests != [] {
      assert t.requests[|t.requests| - 1] == rest.requests[|rest.requests| - 1];
    }
    if rest.pages != [] {
      assert t.pages[|t.pages| - 1] == rest.pages[|rest.pages| - 1];
    }
  }

  /** A page received for `req`, put in front of the trace of what followed it. */
  lemma ConsChained(api: Api, key: string, mtime: string, req: Request, page: Page, rest: Trace)
    requires Chained(api, key, mtime, rest)
    requires api(req) == Response(200, page)
    requires !Truthy(page.next) ==> rest == Trace([], [], Exhausted)
    requires Truthy(page.next) ==> |rest.requests| >= 1 && rest.requests[0] == Request(page.next.value, key, None)
    ensures Chained(api, key, mtime, Trace([req] + rest.requests, [page] + rest.pages, rest.stop))
  {
    ConsAnswered(api, req, page, rest);
    ConsLinked(key, page, req, rest);
    ConsExplained(api, page, req, rest);
  }

  /** The continuation loop issues one request per page and stops exactly at the first falsy `next`. */
  lemma {:induction false} FollowChained(api: Api, key: string, mtime: string, next: Option<string>, bound: nat)
    requires ChainEnds(api, key, mtime, next, bound)
    ensures var t := Follow(api, key, mtime, next, bound);
      && Chained(api, key, mtime, t)
      && (!Truthy(next) ==> t == Trace([], [], Exhausted))
      && (Truthy(next) ==> |t.requests| >= 1 && t.requests[0] == Request(next.value, key, None))
    decreases bound
  {
    if Truthy(next) {
      var req := Continue(key, mtime, next);
      match Dispatch(api(req))
      case Body(page) =>
        FollowChained(api, key, mtime, page.next, bound - 1);
        ConsChained(api, key, mtime, req, page, Follow(api, key, mtime, page.next, bound - 1));
      case Exit(code, message) =>
      case NoValue =>
    }
  }

  /**
   * `iter_pulses` as a whole: the first request carries the query, every
   * later one is the previous page's `next` link with only the key, every
   * page comes from a 200 response, and the stream ends at the first falsy
   * `next`, at a 403 or 400 (exit code 1) or after any other status.
   */
  lemma IterTraceChained(api: Api, key: string, mtime: string, limit: int, bound: nat)
    requires PagesEnd(api, key, mtime, limit, bound)
    ensures var t := IterTrace(api, key, mtime, limit, bound);
      && Chained(api, key, mtime, t)
      && |t.requests| >= 1
      && t.requests[0] == Request(Endpoint, key, Some(Query(limit, mtime)))
      && (t.stop == Exhausted ==> |t.pages| >= 1)
  {
    var req := FirstRequest(key, mtime, limit);
    match Dispatch(api(req))
    case Body(page) =>
      FollowChained(api, key, mtime, page.next, bound);
      ConsChained(api, key, mtime, req, page, Follow(api, key, mtime, page.next, bound));
    case Exit(code, message) =>
    case NoValue =>
  }

  /**
   * The generator `iter_pulses`, with the pulses it yields collected in
   * order. It also returns the requests it sent and why it stopped.
   */
  method IterPulses(api: Api, key: string, mtime: string, limit: int, ghost bound: nat)
    returns (pulses: seq<Pulse>, requests: seq<Request>, stop: Stop)
    requires PagesEnd(api, key, mtime, limit, bound)
    ensures var t := IterTrace(api, key, mtime, limit, bound);
      pulses == Results(t.pages) && requests == t.requests && stop == t.stop
  {
    var first := MakeRequest(key, mtime, limit, "");
    requests := [first];
    pulses := [];
    var initial := Dispatch(api(first));
    if initial.Exit? {
      return pulses, requests, Exited(initial.code, initial.message);
    } else if initial.NoValue? {
      return pulses, requests, Crashed;
    }
    pulses := initial.page.results;
    var next := initial.page.next;
    ghost var pages := [initial.page];
    ghost var b := bound;
    assert Results(pages) == pulses by {
      assert pages[1..] == [];
    }
    while Truthy(next)
      invariant ChainEnds(api, key, mtime, next, b)
      invariant var rest := Follow(api, key, mtime, next, b);
        IterTrace(api, key, mtime, limit, bound) == Trace(requests + rest.requests, pages + rest.pages, rest.stop)
      invariant pulses == Results(pages)
      decreases b
    {
      var req := MakeRequest(key, mtime, DefaultLimit, next.value);
      var got := Dispatch(api(req));
      ghost var rest := Follow(api, key, mtime, next, b);
      match got
      case Body(page) =>
        ghost var more := Follow(api, key, mtime, page.next, b - 1);
        assert rest == Trace([req] + more.requests, [page] + more.pages, more.stop);
        assert requests + rest.requests == (requests + [req]) + more.requests;
        assert pages + rest.pages == (pages + [page]) + more.pages;
        ResultsAppend(pages, [page]);
        assert [page][1..] == [];
        requests := requests + [req];
        pulses := pulses + page.results;
        pages := pages + [page];
        next := page.next;
        b := b - 1;
      case Exit(code, message) =>
        assert rest == Trace([req], [], Exited(code, message));
        assert pages + [] == pages;
        return pulses, requests + [req], Exited(code, message);
      case NoValue =>
        assert rest == Trace([req], [], Crashed);
        assert pages + [] == pages;
        return pulses, requests + [req], Crashed;
    }
    assert requests + [] == requests && pages + [] == pages;
    stop := Exhausted;
  }

  /**
   * Two pages, the first with a continuation link and the second with an
   * empty one: two requests, and the first page's pulses before the second's.
   */
  lemma TwoPages(api: Api, key: string, mtime: string, limit: int, token: string, r1: seq<Pulse>, r2: seq<Pulse>)
    requires token != ""
    requires api(FirstRequest(key, mtime, limit)) == Response(200, Page(r1, Some(token)))
    requires api(Request(token, key, None)) == Response(200, Page(r2, Some("")))
    ensures PagesEnd(api, key, mtime, limit, 1)
    ensures var t := IterTrace(api, key, mtime, limit, 1);
      && t.stop == Exhausted
      && t.requests == [FirstRequest(key, mtime, limit), Request(token, key, None)]
      && Results(t.pages) == r1 + r2
  {
    var p1 := Page(r1, Some(token));
    var p2 := Page(r2, Some(""));
    assert Continue(key, mtime, Some(token)) == Request(token, key, None);
    assert Follow(api, key, mtime, Some(""), 0) == Trace([], [], Exhausted);
    assert Follow(api, key, mtime, Some(token), 1) == Trace([Request(token, key, None)], [p2], Exhausted);
    var t := IterTrace(api, key, mtime, limit, 1);
    assert t.pages == [p1, p2];
    assert [p1, p2][1..] == [p2] && [p2][1..] == [];
    assert Results([p2]) == r2 + Results([]);
    assert Results([p1, p2]) == r1 + Results([p2]);
    assert r2 + [] == r2;
  }
}
