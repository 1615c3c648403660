/**
 * server.go: the adapter from an apiFunc to an http.HandlerFunc, and the
 * page and limit defaults of handleGetTodos. Its withJWTTodoAuth is the
 * chain of jwt.go (LegacyJwt.WithJWTTodoAuth), with the owner lookup going
 * to the Storer instead of the repository.
 */
module LegacyServer {
  import opened Wrappers
  import opened Http
  import opened Strconv
  import LegacyStore

  /** DEFAULT_LIMIT */
  const DefaultLimit: int := 10

  /** The part of an http.ResponseWriter the adapter uses. */
  class ResponseWriter {
    var header: map<string, string>
    var status: Option<int>
    var body: string

    constructor ()
      ensures header == map[] && status == None && body == ""
    {
      header := map[];
      status := None;
      body := "";
    }

    /** w.Header().Set(k, v) */
    method SetHeader(k: string, v: string)
      modifies this
      ensures header == old(header)[k := v]
      ensures status == old(status) && body == old(body)
    {
      header := header[k := v];
    }

    /** w.WriteHeader(code): only the first status written counts. */
    method WriteHeader(code: int)
      modifies this
      ensures status == if old(status).None? then Some(code) else old(status)
      ensures header == old(header) && body == old(body)
    {
      if status.None? {
        status := Some(code);
      }
    }

    /** w.Write(data): an implicit 200 if no status was written yet. */
    method Write(data: string)
      modifies this
      ensures status == if old(status).None? then Some(200) else old(status)
      ensures body == old(body) + data
      ensures header == old(header)
    {
      if status.None? {
        status := Some(200);
      }
      body := body + data;
    }
  }

  /**
   * A non-nil *apiErrorV2 as the adapter sees it: what ResponseHeaders and
   * ResponseBody return for it (the body is empty when ResponseBody failed).
   */
  datatype ApiFailure = ApiFailure(status: int, headers: map<string, string>, body: string)

  /**
   * makeHTTPHandleFunc, from the point where the wrapped function has
   * returned `result`: nothing more is written for nil; otherwise every
   * header is set, then the status, then the body.
   */
  method MakeHTTPHandleFunc(w: ResponseWriter, result: Option<ApiFailure>)
    modifies w
    ensures result.None? ==> w.header == old(w.header) && w.status == old(w.status) && w.body == old(w.body)
    ensures result.Some? ==>
              && w.header == old(w.header) + result.value.headers
              && w.status == (if old(w.status).None? then Some(result.value.status) else old(w.status))
              && w.body == old(w.body) + result.value.body
  {
    if result.None? {
      return;
    }
    var failure := result.value;
    var pending := failure.headers.Keys;
    while pending != {}
      invariant pending <= failure.headers.Keys
      invariant w.status == old(w.status) && w.body == old(w.body)
      invariant forall k :: k in w.header <==> k in old(w.header) || k in failure.headers.Keys - pending
      invariant forall k :: k in w.header ==>
                  w.header[k] == if k in failure.headers.Keys - pending then failure.headers[k] else old(w.header)[k]
      decreases pending
    {
      var k :| k in pending;
      w.SetHeader(k, failure.headers[k]);
      pending := pending - {k};
    }
    w.WriteHeader(failure.status);
    w.Write(failure.body);
  }

  /** The page and limit handleGetTodos passes on: Atoi of the query values, or 0 and DEFAULT_LIMIT. */
  function PageAndLimit(q: Query): (r: (int, int))
    ensures Atoi(QueryGet(q, "page")).Some? ==> r.0 == Atoi(QueryGet(q, "page")).value
    ensures Atoi(QueryGet(q, "page")).None? ==> r.0 == 0
    ensures Atoi(QueryGet(q, "limit")).Some? ==> r.1 == Atoi(QueryGet(q, "limit")).value
    ensures Atoi(QueryGet(q, "limit")).None? ==> r.1 == DefaultLimit
  {
    var page := Atoi(QueryGet(q, "page")).GetOr(0);
    var limit := Atoi(QueryGet(q, "limit")).GetOr(DefaultLimit);
    (page, limit)
  }

  /**
   * Without a page parameter the default page is 0, and store.go's
   * calculateOffset turns it into the negative OFFSET -DEFAULT_LIMIT.
   */
  lemma DefaultPageGivesNegativeOffset(q: Query)
    requires "page" !in q && "limit" !in q
    ensures PageAndLimit(q) == (0, 10)
    ensures LegacyStore.CalculateOffset(PageAndLimit(q).0, PageAndLimit(q).1) == -10
  {
  }

  /** A query value that is not a decimal integer falls back to the default. */
  lemma UnparsableValuesFallBack(q: Query, i: nat)
    requires "page" in q && 0 < i < |q["page"]| && !IsDigit(q["page"][i])
    requires "limit" in q && q["limit"] == ""
    ensures PageAndLimit(q) == (0, DefaultLimit)
  {
    AtoiRejectsNonDigit(q["page"], i);
  }
}
