/** The client's request helpers: prefixing API paths with the deployment's
    base, turning non-2xx responses into errors, and the default query
    function. `fetch` and JSON parsing are not modelled: the response and
    the outcome of `res.json()` are inputs. */
module Query {
  import opened Common
  import opened Decimal
  import opened Text

  /** `getApiUrl`: a path already under `base` is kept, a leading `/api`
      is replaced by `base`, and anything else is prefixed with it. */
  function GetApiUrl(base: string, path: string): (r: string)
    ensures StartsWith(r, base)
    ensures StartsWith(path, base) ==> r == path
    ensures !StartsWith(path, base) && StartsWith(path, "/api") ==> r == base + path[4..]
    ensures !StartsWith(path, base) && !StartsWith(path, "/api") ==> r == base + path
  {
    if StartsWith(path, base) then path
    else if StartsWith(path, "/api") then
      assert (base + path[4..])[..|base|] == base;
      base + path[4..]
    else
      assert (base + path)[..|base|] == base;
      base + path
  }

  /** Prefixing twice is prefixing once. */
  lemma GetApiUrlIdempotent(base: string, path: string)
    ensures GetApiUrl(base, GetApiUrl(base, path)) == GetApiUrl(base, path)
  {
  }

  /** In development the base is `/api` itself, and every path starting
      with it is left alone. */
  lemma DevelopmentKeepsApiPaths(path: string)
    requires StartsWith(path, "/api")
    ensures GetApiUrl("/api", path) == path
  {
  }

  datatype HttpResponse = HttpResponse(ok: bool, status: int, statusText: string, body: string)

  /** `throwIfResNotOk`: an ok response passes; otherwise the error message
      is `status: body`, with the status text standing in for an empty
      body. The status reads back from the text before the first colon. */
  function ThrowIfResNotOk(res: HttpResponse): (r: Result<HttpResponse, string>)
    ensures res.ok <==> r == Ok(res)
    ensures r.Err? ==> var detail := if res.body == "" then res.statusText else res.body;
      && SplitOnce(r.error, ':') == Some((IntToString(res.status), " " + detail))
      && ParseInt(IntToString(res.status)) == Some(res.status)
  {
    if res.ok then Ok(res)
    else
      var detail := if res.body == "" then res.statusText else res.body;
      var status := IntToString(res.status);
      assert ':' !in status by {
        if res.status >= 0 {
          DigitsHaveNo(status, ':');
        } else {
          DigitsHaveNo(NatToString(-res.status), ':');
        }
      }
      SplitOnceOf(status, ':', " " + detail);
      IntRoundTrip(res.status);
      Err(status + [':'] + (" " + detail))
  }

  datatype UnauthorizedBehavior = ReturnNull | Throw

  /** What a query yields: `null`, the parsed JSON body, or a thrown error. */
  datatype QueryOutcome = Null | Json(body: string) | Thrown(message: string)

  /** `getQueryFn(on401)` applied to the query key `key`: the URL fetched,
      and what the query yields for the response `res`. `json` is what
      `res.json()` gives once the response has passed: the parsed value, or
      the `SyntaxError` message for an empty or malformed body. */
  function QueryFn(base: string, on401: UnauthorizedBehavior, key: string, res: HttpResponse, json: Result<string, string>): (r: (string, QueryOutcome))
    ensures r.0 == GetApiUrl(base, key)
    ensures r.1 == Null <==> on401 == ReturnNull && res.status == 401
    ensures r.1.Json? <==> res.ok && json.Ok? && !(on401 == ReturnNull && res.status == 401)
    ensures r.1.Json? ==> json == Ok(r.1.body)
    ensures r.1.Thrown? && !res.ok ==> Err(r.1.message) == ThrowIfResNotOk(res)
    ensures r.1.Thrown? && res.ok ==> json == Err(r.1.message)
  {
    var url := GetApiUrl(base, key);
    if on401 == ReturnNull && res.status == 401 then (url, Null)
    else match ThrowIfResNotOk(res)
      case Err(m) => (url, Thrown(m))
      case Ok(_) =>
        match json
        case Ok(v) => (url, Json(v))
        case Err(m) => (url, Thrown(m))
  }

  /** With the default `throw` behaviour a 401 is an error like any other
      failure. */
  lemma DefaultQueryThrowsOn401(base: string, key: string, res: HttpResponse, json: Result<string, string>)
    requires !res.ok && res.status == 401
    ensures QueryFn(base, Throw, key, res, json).1.Thrown?
  {
  }

  /** An ok response whose body does not parse (an HTML fallback page, an
      empty body) fails the query with the parser's error. */
  lemma UnparsableBodyThrows(base: string, on401: UnauthorizedBehavior, key: string, res: HttpResponse, message: string)
    requires res.ok && res.status != 401
    ensures QueryFn(base, on401, key, res, Err(message)).1 == Thrown(message)
  {
  }

  /** `apiRequest`: the URL fetched, and the response or the error thrown. */
  function ApiRequest(base: string, url: string, res: HttpResponse): (r: (string, Result<HttpResponse, string>))
    ensures r.0 == GetApiUrl(base, url)
    ensures r.1.Ok? <==> res.ok
    ensures r.1.Ok? ==> r.1.value == res
  {
    (GetApiUrl(base, url), ThrowIfResNotOk(res))
  }
}
