/** The request-composition logic of frontend/src/services/api.js: base URL
    selection, endpoint normalisation, query strings, the option and header
    merge of `apiFetch`, its ok-check, and the parameters of
    `videoApi.getVideos`. `fetch` itself, `import.meta.env`,
    `window.location`, `JSON.stringify` and percent-encoding are inputs. */
module Api {
  import opened Wrappers
  import opened Strings

  // ---------------------------------------------------------------------
  // Values and environment

  /** The JavaScript values the module's arguments can take (numbers are
      integral here). */
  datatype JsValue = Undefined | Null | Bool(b: bool) | Num(n: int) | Str(s: string)

  /** JavaScript truthiness. */
  predicate Truthy(v: JsValue) {
    match v
    case Undefined => false
    case Null => false
    case Bool(b) => b
    case Num(n) => n != 0
    case Str(s) => s != ""
  }

  /** `String(v)`, the conversion `URLSearchParams` applies to values. */
  function JsString(v: JsValue): string {
    match v
    case Undefined => "undefined"
    case Null => "null"
    case Bool(b) => if b then "true" else "false"
    case Num(n) => IntToDecimal(n)
    case Str(s) => s
  }

  /** A default parameter: JavaScript substitutes it only for `undefined`. */
  function OrDefault(v: JsValue, fallback: JsValue): JsValue {
    if v.Undefined? then fallback else v
  }

  /** `import.meta.env`: `VITE_API_BASE_URL` (absent or a string) and `DEV`. */
  datatype Env = Env(apiBaseUrl: Option<string>, dev: bool)

  /** The two fields of `window.location` the module reads. */
  datatype Location = Location(protocol: string, hostname: string)

  const ApiSuffix := "/api"
  const ProductionPort := "5003"

  /** A string environment variable is truthy when set and non-empty. */
  predicate IsSet(v: Option<string>) {
    v.Some? && v.value != ""
  }

  // ---------------------------------------------------------------------
  // URLs

  /** `getBaseUrl`: the configured base, else the dev proxy path, else the
      page's own host on the backend port; in every case ending in `/api`. */
  function GetBaseUrl(env: Env, loc: Location): (r: string)
    ensures EndsWith(r, ApiSuffix)
    ensures IsSet(env.apiBaseUrl) ==> r == env.apiBaseUrl.value + ApiSuffix
    ensures !IsSet(env.apiBaseUrl) && env.dev ==> r == ApiSuffix
    ensures !IsSet(env.apiBaseUrl) && !env.dev ==>
      r == loc.protocol + "//" + loc.hostname + ":" + ProductionPort + ApiSuffix
  {
    if IsSet(env.apiBaseUrl) then
      EndsWithAppend(env.apiBaseUrl.value, ApiSuffix);
      env.apiBaseUrl.value + ApiSuffix
    else if env.dev then
      ApiSuffix
    else
      var host := loc.protocol + "//" + loc.hostname + ":" + ProductionPort;
      EndsWithAppend(host, ApiSuffix);
      host + ApiSuffix
  }

  /** Only a production build without a configured base depends on the page
      location. */
  lemma BaseUrlIgnoresLocation(env: Env, a: Location, b: Location)
    requires IsSet(env.apiBaseUrl) || env.dev
    ensures GetBaseUrl(env, a) == GetBaseUrl(env, b)
  {
  }

  /** The endpoint with exactly one guaranteed leading slash added when it
      lacks one. */
  function NormalizeEndpoint(endpoint: string): (r: string)
    ensures StartsWith(r, "/")
    ensures EndsWith(r, endpoint)
    ensures |r| == |endpoint| || |r| == |endpoint| + 1
    ensures StartsWith(endpoint, "/") <==> r == endpoint
  {
    if StartsWith(endpoint, "/") then
      assert endpoint[|endpoint| - |endpoint|..] == endpoint;
      endpoint
    else
      EndsWithAppend("/", endpoint);
      "/" + endpoint
  }

  /** Normalising twice is normalising once. */
  lemma NormalizeIdempotent(endpoint: string)
    ensures NormalizeEndpoint(NormalizeEndpoint(endpoint)) == NormalizeEndpoint(endpoint)
  {
  }

  /** `getApiUrl`: the base URL followed by the normalised endpoint. */
  function GetApiUrl(env: Env, loc: Location, endpoint: string): (r: string)
    ensures StartsWith(r, GetBaseUrl(env, loc))
    ensures r[|GetBaseUrl(env, loc)|..] == NormalizeEndpoint(endpoint)
  {
    var base := GetBaseUrl(env, loc);
    assert (base + NormalizeEndpoint(endpoint))[..|base|] == base;
    base + NormalizeEndpoint(endpoint)
  }

  /** A leading slash on the endpoint makes no difference. */
  lemma {:induction false} ApiUrlSlashInsensitive(env: Env, loc: Location, endpoint: string)
    requires !StartsWith(endpoint, "/")
    ensures GetApiUrl(env, loc, endpoint) == GetApiUrl(env, loc, "/" + endpoint)
  {
    assert StartsWith("/" + endpoint, "/") by {
      assert ("/" + endpoint)[..1] == "/";
    }
  }

  /** The suffix after the base URL starts with `/` and ends with the
      endpoint as given. */
  lemma {:induction false} ApiUrlShape(env: Env, loc: Location, endpoint: string)
    ensures var base := GetBaseUrl(env, loc);
      var r := GetApiUrl(env, loc, endpoint);
      |r| > |base| && r[|base|] == '/' && EndsWith(r, endpoint) && EndsWith(base, ApiSuffix)
  {
    var base := GetBaseUrl(env, loc);
    var n := NormalizeEndpoint(endpoint);
    var r := GetApiUrl(env, loc, endpoint);
    assert r == base + n;
    assert n[..1] == "/";
    assert r[|base|] == n[0];
    assert r[|r| - |endpoint|..] == n[|n| - |endpoint|..];
  }

  // ---------------------------------------------------------------------
  // Query strings

  /** `new URLSearchParams(params).toString()`: `key=value` pairs joined by
      `&`, with `encode` the form-encoding of a component. */
  function QueryString(params: seq<(string, JsValue)>, encode: string -> string): (r: string)
    ensures r == "" <==> |params| == 0
  {
    if |params| == 0 then ""
    else
      var pair := encode(params[0].0) + "=" + encode(JsString(params[0].1));
      if |params| == 1 then pair else pair + "&" + QueryString(params[1..], encode)
  }

  /** `apiGet`/`apiDelete`: append `?query` only when the query is non-empty. */
  function WithQuery(endpoint: string, query: string): (r: string)
    ensures StartsWith(r, endpoint)
    ensures query == "" <==> r == endpoint
    ensures query != "" ==> r[|endpoint|..] == "?" + query
  {
    if query == "" then endpoint
    else
      assert (endpoint + "?" + query)[..|endpoint|] == endpoint;
      endpoint + "?" + query
  }

  // ---------------------------------------------------------------------
  // Fetch options

  /** The fetch options the module uses; `None` is a property the object
      does not have. */
  datatype Options = Options(httpMethod: Option<string>, headers: Option<map<string, string>>,
                             body: Option<string>)

  const NoOptions := Options(None, None, None)
  const JsonHeaders: map<string, string> := map["Content-Type" := "application/json"]

  /** Object spread `{...a, ...b}`: every property `b` has wins. */
  function Spread(a: Options, b: Options): (r: Options)
    ensures r.httpMethod == if b.httpMethod.Some? then b.httpMethod else a.httpMethod
    ensures r.headers == if b.headers.Some? then b.headers else a.headers
    ensures r.body == if b.body.Some? then b.body else a.body
  {
    Options(if b.httpMethod.Some? then b.httpMethod else a.httpMethod,
            if b.headers.Some? then b.headers else a.headers,
            if b.body.Some? then b.body else a.body)
  }

  /** The headers `apiFetch` builds first: JSON content type, overridden by
      the caller's headers. */
  function MergedHeaders(opts: Options): (r: map<string, string>)
    ensures opts.headers.None? ==> r == JsonHeaders
    ensures opts.headers.Some? ==> r == JsonHeaders + opts.headers.value
  {
    var r := JsonHeaders + opts.headers.GetOr(map[]);
    assert opts.headers.None? ==> r == JsonHeaders;
    r
  }

  /** `{...defaultOptions, ...options}` as written: the caller's `headers`
      property, when present, replaces the merged map wholesale. */
  function FetchOptionsAsWritten(opts: Options): (r: Options)
    ensures r.httpMethod == opts.httpMethod && r.body == opts.body
    ensures opts.headers.None? ==> r.headers == Some(JsonHeaders)
    ensures opts.headers.Some? ==> r.headers == opts.headers
  {
    Spread(Options(None, Some(MergedHeaders(opts)), None), opts)
  }

  /** The merge `apiFetch` evidently intends: the caller's options with the
      merged headers, so the JSON content type survives caller headers. */
  function FetchOptions(opts: Options): (r: Options)
    ensures r.httpMethod == opts.httpMethod && r.body == opts.body
    ensures r.headers.Some?
    ensures "Content-Type" in r.headers.value
    ensures opts.headers.Some? ==> forall k :: k in opts.headers.value ==>
      k in r.headers.value && r.headers.value[k] == opts.headers.value[k]
    ensures forall k :: k in r.headers.value ==>
      k == "Content-Type" || (opts.headers.Some? && k in opts.headers.value)
    ensures (opts.headers.None? || "Content-Type" !in opts.headers.value) ==>
      r.headers.value["Content-Type"] == "application/json"
  {
    Spread(opts, Options(None, Some(MergedHeaders(opts)), None))
  }

  /** Without caller headers the two merges agree. */
  lemma FetchOptionsAgreeWithoutHeaders(opts: Options)
    requires opts.headers.None?
    ensures FetchOptions(opts) == FetchOptionsAsWritten(opts)
  {
  }

  /** The headers `adminApi` passes: only a bearer token. */
  function AdminOptions(userId: string): Options {
    Options(None, Some(map["Authorization" := "Bearer " + userId]), None)
  }

  // ---------------------------------------------------------------------
  // Requests and responses

  datatype Request = Request(url: string, options: Options)

  /** The part of a `fetch` Response the module inspects. */
  datatype Response = Response(ok: bool, status: nat)

  /** What `fetch` produced: a response, or a rejected promise. */
  datatype FetchReply = Delivered(response: Response) | NetworkError(reason: string)

  /** Why `apiFetch` threw. */
  datatype FetchError = HttpStatus(status: nat) | Network(reason: string)

  /** One `apiFetch` call: the request it issued and what it resolved to. */
  datatype Call = Call(request: Request, outcome: Result<Response, FetchError>)

  /** `apiFetch`'s outcome: the response only when `ok`; otherwise it throws
      the status, and a network failure is rethrown. */
  function CheckOk(reply: FetchReply): (r: Result<Response, FetchError>)
    ensures r.Success? <==> reply.Delivered? && reply.response.ok
    ensures r.Success? ==> r.value == reply.response
    ensures reply.Delivered? && !reply.response.ok ==> r == Failure(HttpStatus(reply.response.status))
    ensures reply.NetworkError? ==> r == Failure(Network(reply.reason))
  {
    match reply
    case NetworkError(reason) => Failure(Network(reason))
    case Delivered(response) =>
      if response.ok then Success(response) else Failure(HttpStatus(response.status))
  }

  /** `apiFetch`: request the normalised URL with the merged options. */
  function ApiFetch(env: Env, loc: Location, endpoint: string, opts: Options,
                    reply: FetchReply): (c: Call)
    ensures StartsWith(c.request.url, GetBaseUrl(env, loc))
    ensures EndsWith(c.request.url, endpoint)
    ensures c.request.options.httpMethod == opts.httpMethod && c.request.options.body == opts.body
    ensures opts.headers.None? ==> c.request.options.headers == Some(JsonHeaders)
    ensures opts.headers.Some? ==> c.request.options.headers == opts.headers
    ensures c.request.url == GetApiUrl(env, loc, endpoint)
    ensures c.outcome == CheckOk(reply)
    ensures c.outcome.Success? <==> reply.Delivered? && reply.response.ok
  {
    ApiUrlShape(env, loc, endpoint);
    Call(Request(GetApiUrl(env, loc, endpoint), FetchOptionsAsWritten(opts)), CheckOk(reply))
  }

  /** `apiFetch` with the merge it evidently intends: the JSON content type
      is sent alongside whatever headers the caller passes. */
  function ApiFetchIntended(env: Env, loc: Location, endpoint: string, opts: Options,
                            reply: FetchReply): (c: Call)
    ensures StartsWith(c.request.url, GetBaseUrl(env, loc))
    ensures EndsWith(c.request.url, endpoint)
    ensures c.request.options.httpMethod == opts.httpMethod && c.request.options.body == opts.body
    ensures c.request.options.headers.Some?
    ensures "Content-Type" in c.request.options.headers.value
    ensures opts.headers.Some? ==> forall k :: k in opts.headers.value ==>
      k in c.request.options.headers.value && c.request.options.headers.value[k] == opts.headers.value[k]
    ensures forall k :: k in c.request.options.headers.value ==>
      k == "Content-Type" || (opts.headers.Some? && k in opts.headers.value)
    ensures (opts.headers.None? || "Content-Type" !in opts.headers.value) ==>
      c.request.options.headers.value["Content-Type"] == "application/json"
    ensures c.request.url == GetApiUrl(env, loc, endpoint)
    ensures c.outcome == CheckOk(reply)
    ensures c.outcome.Success? <==> reply.Delivered? && reply.response.ok
  {
    ApiUrlShape(env, loc, endpoint);
    Call(Request(GetApiUrl(env, loc, endpoint), FetchOptions(opts)), CheckOk(reply))
  }

  /** `apiGet`: the endpoint with its query string, through `apiFetch`. */
  function ApiGet(env: Env, loc: Location, endpoint: string, params: seq<(string, JsValue)>,
                  encode: string -> string, opts: Options, reply: FetchReply): (c: Call)
    ensures |params| == 0 ==> c.request.url == GetApiUrl(env, loc, endpoint)
    ensures |params| > 0 ==>
      c.request.url == GetApiUrl(env, loc, endpoint + "?" + QueryString(params, encode))
    ensures c.request.options.httpMethod == opts.httpMethod
    ensures opts.headers.Some? ==> c.request.options.headers == opts.headers
  {
    ApiFetch(env, loc, WithQuery(endpoint, QueryString(params, encode)), opts, reply)
  }

  /** The options `apiDelete` hands to `apiFetch`: DELETE unless the
      caller's options name another method. */
  function DeleteOptions(opts: Options): (r: Options)
    ensures r.httpMethod == if opts.httpMethod.Some? then opts.httpMethod else Some("DELETE")
    ensures r.headers == opts.headers && r.body == opts.body
  {
    Spread(Options(Some("DELETE"), None, None), opts)
  }

  /** `apiDelete`: like `apiGet`, with the DELETE method. */
  function ApiDelete(env: Env, loc: Location, endpoint: string, params: seq<(string, JsValue)>,
                     encode: string -> string, opts: Options, reply: FetchReply): (c: Call)
    ensures |params| == 0 ==> c.request.url == GetApiUrl(env, loc, endpoint)
    ensures |params| > 0 ==>
      c.request.url == GetApiUrl(env, loc, endpoint + "?" + QueryString(params, encode))
    ensures opts.httpMethod.None? ==> c.request.options.httpMethod == Some("DELETE")
    ensures opts.headers.Some? ==> c.request.options.headers == opts.headers
  {
    ApiFetch(env, loc, WithQuery(endpoint, QueryString(params, encode)), DeleteOptions(opts), reply)
  }

  /** The options `apiPost` hands to `apiFetch`: POST with the JSON body,
      each overridable by the caller. */
  function PostOptions(dataJson: string, opts: Options): (r: Options)
    ensures r.httpMethod == if opts.httpMethod.Some? then opts.httpMethod else Some("POST")
    ensures r.body == if opts.body.Some? then opts.body else Some(dataJson)
    ensures r.headers == opts.headers
  {
    Spread(Options(Some("POST"), None, Some(dataJson)), opts)
  }

  /** `apiPost`: no query string; `dataJson` is `JSON.stringify(data)`. */
  function ApiPost(env: Env, loc: Location, endpoint: string, dataJson: string, opts: Options,
                   reply: FetchReply): (c: Call)
    ensures c.request.url == GetApiUrl(env, loc, endpoint)
    ensures opts.httpMethod.None? ==> c.request.options.httpMethod == Some("POST")
    ensures opts.headers.Some? ==> c.request.options.headers == opts.headers
  {
    ApiFetch(env, loc, endpoint, PostOptions(dataJson, opts), reply)
  }

  /** `apiPut`: PUT with the JSON body and no caller options, so the JSON
      content type is always sent. */
  function ApiPut(env: Env, loc: Location, endpoint: string, dataJson: string,
                  reply: FetchReply): (c: Call)
    ensures c.request.url == GetApiUrl(env, loc, endpoint)
    ensures c.request.options == Options(Some("PUT"), Some(JsonHeaders), Some(dataJson))
  {
    ApiFetch(env, loc, endpoint, Options(Some("PUT"), None, Some(dataJson)), reply)
  }

  // ---------------------------------------------------------------------
  // videoApi.getVideos

  /** A parameter list has `key` among its keys. */
  predicate HasKey(params: seq<(string, JsValue)>, key: string) {
    exists i :: 0 <= i < |params| && params[i].0 == key
  }

  /** `getVideos`' parameter object, in insertion order: `page` and
      `per_page` (defaults 1 and 50 for `undefined`), then `random: true`
      for a truthy `random`, then `seed` for a truthy `seed`. */
  function GetVideosParams(page: JsValue, perPage: JsValue, random: JsValue,
                           seed: JsValue): (r: seq<(string, JsValue)>)
    ensures 2 <= |r| <= 4
    ensures r[0] == ("page", OrDefault(page, Num(1)))
    ensures r[1] == ("per_page", OrDefault(perPage, Num(50)))
    ensures |r| == 2 + (if Truthy(random) then 1 else 0) + (if Truthy(seed) then 1 else 0)
    ensures Truthy(random) ==> r[2] == ("random", Bool(true))
    ensures Truthy(seed) ==> r[|r| - 1] == ("seed", seed)
  {
    var base := [("page", OrDefault(page, Num(1))), ("per_page", OrDefault(perPage, Num(50)))];
    var withRandom := if Truthy(OrDefault(random, Bool(false))) then base + [("random", Bool(true))] else base;
    if Truthy(OrDefault(seed, Null)) then withRandom + [("seed", seed)] else withRandom
  }

  /** `random` and `seed` are sent exactly when truthy, `random` always as
      `true` and `seed` as given; `page` and `per_page` are always sent. */
  lemma {:induction false} GetVideosParamsKeys(page: JsValue, perPage: JsValue, random: JsValue,
                                               seed: JsValue)
    ensures var r := GetVideosParams(page, perPage, random, seed);
      && HasKey(r, "page") && HasKey(r, "per_page")
      && (HasKey(r, "random") <==> Truthy(random))
      && (HasKey(r, "seed") <==> Truthy(seed))
      && (forall i :: 0 <= i < |r| && r[i].0 == "random" ==> r[i].1 == Bool(true))
      && (forall i :: 0 <= i < |r| && r[i].0 == "seed" ==> r[i].1 == seed)
  {
    var r := GetVideosParams(page, perPage, random, seed);
    assert r[0].0 == "page" && r[1].0 == "per_page";
    var n := 2 + (if Truthy(random) then 1 else 0);
    assert |r| == n + (if Truthy(seed) then 1 else 0);
    if Truthy(random) {
      assert r[2] == ("random", Bool(true));
    }
    if Truthy(seed) {
      assert r[n] == ("seed", seed);
    }
    forall i | 0 <= i < |r|
      ensures r[i].0 == "random" <==> (Truthy(random) && i == 2)
      ensures r[i].0 == "seed" <==> (Truthy(seed) && i == n)
    {
      if i >= 2 && Truthy(random) && i == 2 { assert r[i] == ("random", Bool(true)); }
      if Truthy(seed) && i == n { assert r[i] == ("seed", seed); }
    }
  }

  /** A zero or empty seed is dropped: the request is the unseeded one. */
  lemma FalsySeedDropped(page: JsValue, perPage: JsValue, random: JsValue, seed: JsValue)
    requires seed == Num(0) || seed == Str("") || seed == Null || seed == Undefined
    ensures GetVideosParams(page, perPage, random, seed) == GetVideosParams(page, perPage, random, Null)
  {
  }

  /** As written, every `adminApi` request sends the bearer token as its
      only header, so `refreshFiles` posts a JSON body with no JSON content
      type; with the intended merge the same POST carries both headers. */
  lemma AdminRequestsSendOnlyBearer(env: Env, loc: Location, userId: string,
                                    encode: string -> string, reply: FetchReply)
    ensures var bearer := Some(map["Authorization" := "Bearer " + userId]);
      var post := ApiPost(env, loc, "/admin/refresh-files", "{}", AdminOptions(userId), reply);
      && post.request.options.headers == bearer
      && post.request.options.body == Some("{}")
      && ApiGet(env, loc, "/admin/refresh-status", [], encode, AdminOptions(userId), reply)
           .request.options.headers == bearer
      && ApiDelete(env, loc, "/admin/delete-all-dislike-content", [], encode, AdminOptions(userId), reply)
           .request.options.headers == bearer
    ensures var intended := ApiFetchIntended(env, loc, "/admin/refresh-files",
                                             PostOptions("{}", AdminOptions(userId)), reply);
      && intended.request.options.body == Some("{}")
      && "Content-Type" in intended.request.options.headers.value
      && intended.request.options.headers.value["Content-Type"] == "application/json"
      && intended.request.options.headers.value["Authorization"] == "Bearer " + userId
  {
  }

  /** `videoApi.getVideos`: always a query string, so the URL always carries `?`. */
  function GetVideos(env: Env, loc: Location, page: JsValue, perPage: JsValue, random: JsValue,
                     seed: JsValue, encode: string -> string, reply: FetchReply): (c: Call)
    ensures c.request.url == GetApiUrl(env, loc, "/videos?" +
      QueryString(GetVideosParams(page, perPage, random, seed), encode))
  {
    var params := GetVideosParams(page, perPage, random, seed);
    var query := QueryString(params, encode);
    assert "/videos" + "?" + query == "/videos?" + query;
    ApiGet(env, loc, "/videos", params, encode, NoOptions, reply)
  }
}
