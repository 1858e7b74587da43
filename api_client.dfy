/** The frontend's API client: how `api` resolves the URL, builds the headers around the stored
    token, and turns a response into a value or a thrown error; and the request each endpoint
    helper makes. `fetch` is replaced by the response it delivers, `localStorage` by the stored
    token, and `JSON.stringify` and `URLSearchParams` by the values they are given. */
module ApiClient {
  import opened Wrappers
  import opened Text
  import opened Js

  const ApiBase: string := "/api"

  /** The URL `api` fetches: a path starting with `http` is used as it is, any other path is
      put under `/api`. */
  function ResolveUrl(path: string): (url: string)
    ensures StartsWith(path, "http") ==> url == path
    ensures !StartsWith(path, "http") ==> url == ApiBase + path && StartsWith(url, "/api")
  {
    if StartsWith(path, "http") then path else ApiBase + path
  }

  /** Every endpoint path of the client starts with `/`, so it is always put under `/api`,
      and the part after the prefix is the path itself. */
  lemma EndpointPathsGoUnderApi(path: string)
    requires StartsWith(path, "/")
    ensures ResolveUrl(path) == "/api" + path
    ensures ResolveUrl(path)[|ApiBase|..] == path
  {
    assert !StartsWith(path, "http") by {
      if |path| >= 4 {
        assert path[0] == '/';
        assert path[..4][0] == '/';
      }
    }
  }

  /** Whether `getToken()` yields a truthy token: one is stored and it is not empty. */
  predicate HasToken(token: Option<string>) {
    token.Some? && token.value != ""
  }

  /** The headers `api` sends: JSON content type unless the caller overrides it, the
      caller's headers, and the Bearer header whenever a token is stored, which overrides
      any Authorization the caller passed. */
  function RequestHeaders(caller: map<string, string>, token: Option<string>): (h: map<string, string>)
    ensures "Content-Type" in h
    ensures h["Content-Type"] == if "Content-Type" in caller then caller["Content-Type"] else "application/json"
    ensures "Authorization" in h <==> HasToken(token) || "Authorization" in caller
    ensures HasToken(token) ==> h["Authorization"] == "Bearer " + token.value
    ensures !HasToken(token) && "Authorization" in caller ==> h["Authorization"] == caller["Authorization"]
    ensures forall k :: k != "Content-Type" && k != "Authorization" ==>
      (k in h <==> k in caller) && (k in caller ==> h[k] == caller[k])
  {
    var merged := map["Content-Type" := "application/json"] + caller;
    if HasToken(token) then merged["Authorization" := "Bearer " + token.value] else merged
  }

  /** Lines 9-14 of `api`: the headers object is built by spreading the caller's headers over
      the default, then the Authorization entry is set in place when a token is stored. */
  method BuildHeaders(caller: map<string, string>, token: Option<string>) returns (headers: map<string, string>)
    ensures headers == RequestHeaders(caller, token)
  {
    headers := map["Content-Type" := "application/json"];
    headers := headers + caller;
    if token.Some? && token.value != "" {
      headers := headers["Authorization" := "Bearer " + token.value];
    }
  }

  /** Without a stored token the caller's headers are sent as they are, with the JSON content
      type added only when the caller gave none. */
  lemma NoTokenKeepsCallerHeaders(caller: map<string, string>, token: Option<string>)
    requires !HasToken(token)
    ensures RequestHeaders(caller, token) == (if "Content-Type" in caller then caller else caller["Content-Type" := "application/json"])
  {
    var h := RequestHeaders(caller, token);
    var e := if "Content-Type" in caller then caller else caller["Content-Type" := "application/json"];
    assert h.Keys == e.Keys;
  }

  /** What `fetch` resolved to, as far as `api` reads it. `body` is what `res.json()` yields,
      `None` when the body does not parse. */
  datatype Response = Response(ok: bool, status: int, statusText: string, body: Option<JsValue>)

  /** The error `api` throws for a non-OK response: the value given to `new Error` as its
      message, and the status and data attached to it. */
  datatype ApiError = ApiError(message: JsValue, status: int, data: JsValue)

  /** How the call ends: with a value, with the client's error, with the parse error of an OK
      response whose body is not JSON, or with the TypeError of reading `.error` of a body
      that is `null`. */
  datatype Outcome =
    | Returned(value: JsValue)
    | Thrown(error: ApiError)
    | InvalidJson
    | TypeErrorOnNullish

  /** `data.error || res.statusText || 'Request failed'`, for data that is not null or
      undefined (reading a property of those throws). */
  function ErrorMessage(data: JsValue, statusText: string): (m: JsValue)
    requires !data.Null? && !data.Undefined?
    ensures Truthy(Get(data, "error")) ==> m == Get(data, "error")
    ensures !Truthy(Get(data, "error")) && statusText != "" ==> m == Str(statusText)
    ensures !Truthy(Get(data, "error")) && statusText == "" ==> m == Str("Request failed")
    ensures Truthy(m)
  {
    var e := Get(data, "error");
    if Truthy(e) then e else if statusText != "" then Str(statusText) else Str("Request failed")
  }

  /** Lines 16-23 of `api`: an OK 204 gives null; another OK response gives its parsed body;
      a non-OK response throws with the message chain, a body that does not parse counting
      as `{}`. */
  function HandleResponse(res: Response): (r: Outcome)
    ensures res.ok && res.status == 204 ==> r == Returned(Null)
    ensures res.ok && res.status != 204 ==> r == if res.body.Some? then Returned(res.body.value) else InvalidJson
    ensures !res.ok ==> r.Thrown? || r.TypeErrorOnNullish?
    ensures r.TypeErrorOnNullish? <==> !res.ok && (res.body == Some(Null) || res.body == Some(Undefined))
    ensures r.Thrown? ==>
      var data := if res.body.Some? then res.body.value else Object([]);
      && r.error.status == res.status
      && r.error.data == data
      && r.error.message == ErrorMessage(data, res.statusText)
  {
    if res.ok then
      if res.status == 204 then Returned(Null)
      else if res.body.Some? then Returned(res.body.value)
      else InvalidJson
    else
      var data := if res.body.Some? then res.body.value else Object([]);
      if data.Null? || data.Undefined? then TypeErrorOnNullish
      else Thrown(ApiError(ErrorMessage(data, res.statusText), res.status, data))
  }

  /** A failed response whose body does not parse is reported with its status text, or
      'Request failed' when that is empty, and `{}` as its data. */
  lemma UnparseableErrorBody(res: Response)
    requires !res.ok && res.body.None?
    ensures HandleResponse(res) == Thrown(ApiError(
      if res.statusText != "" then Str(res.statusText) else Str("Request failed"), res.status, Object([])))
  {
  }

  /** A failed response whose body is `{ error: msg }` with a non-empty message is reported
      with that message, whatever the status text. */
  lemma ServerErrorMessageWins(res: Response, msg: string)
    requires !res.ok && res.body == Some(Object([Property("error", Str(msg))]))
    requires msg != ""
    ensures HandleResponse(res).Thrown? && HandleResponse(res).error.message == Str(msg)
  {
  }

  /** The HTTP methods the helpers use; a helper that passes none makes a GET. */
  datatype HttpMethod = GET | POST | PATCH | DELETE

  /** A request a helper makes: its HTTP method, its path, and the value it sends as JSON. */
  datatype Request = Request(verb: HttpMethod, path: string, body: Option<JsValue>)

  /** `/<collection>/<id>` and `/<collection>/<id>/<action>`. */
  function ItemPath(collection: string, id: int): string {
    "/" + collection + "/" + IntToString(id)
  }

  function ActionPath(collection: string, id: int, action: string): string {
    ItemPath(collection, id) + "/" + action
  }

  /** The helpers that act on one record. */
  datatype Endpoint =
    | LoginUser(email: string, password: string)
    | CreateRecord(collection: string, body: JsValue)
    | GetRecord(collection: string, id: int)
    | UpdateRecord(collection: string, id: int, body: JsValue)
    | DeleteRecord(collection: string, id: int)
    | Available(collection: string)
    | DispatchTrip(id: int)
    | CompleteTrip(id: int)
    | CompleteMaintenance(id: int)
    | Dashboard
    | FuelTrend
    | CostReports

  /** The request each helper makes. Updates are PATCH requests; dispatch and completion are
      PATCH requests without a body. */
  function RequestOf(e: Endpoint): (r: Request)
    ensures e.UpdateRecord? ==> r == Request(PATCH, ItemPath(e.collection, e.id), Some(e.body))
    ensures e.DispatchTrip? ==> r == Request(PATCH, ActionPath("trips", e.id, "dispatch"), None)
    ensures e.CompleteTrip? ==> r == Request(PATCH, ActionPath("trips", e.id, "complete"), None)
    ensures e.CompleteMaintenance? ==> r == Request(PATCH, ActionPath("maintenance", e.id, "complete"), None)
    ensures e.LoginUser? ==> r.verb == POST && r.path == "/auth/login"
    ensures e.GetRecord? || e.Available? || e.Dashboard? || e.FuelTrend? || e.CostReports? ==> r.verb == GET && r.body.None?
  {
    match e
    case LoginUser(email, password) =>
      Request(POST, "/auth/login", Some(Object([Property("email", Str(email)), Property("password", Str(password))])))
    case CreateRecord(c, body) => Request(POST, "/" + c, Some(body))
    case GetRecord(c, id) => Request(GET, ItemPath(c, id), None)
    case UpdateRecord(c, id, body) => Request(PATCH, ItemPath(c, id), Some(body))
    case DeleteRecord(c, id) => Request(DELETE, ItemPath(c, id), None)
    case Available(c) => Request(GET, "/" + c + "/available", None)
    case DispatchTrip(id) => Request(PATCH, ActionPath("trips", id, "dispatch"), None)
    case CompleteTrip(id) => Request(PATCH, ActionPath("trips", id, "complete"), None)
    case CompleteMaintenance(id) => Request(PATCH, ActionPath("maintenance", id, "complete"), None)
    case Dashboard => Request(GET, "/analytics/dashboard", None)
    case FuelTrend => Request(GET, "/analytics/fuel-trend", None)
    case CostReports => Request(GET, "/analytics/reports", None)
  }

  /** The list helpers: `/<collection>?` followed by the encoded query, which is empty when no
      parameters are given. */
  function ListPath(collection: string, encodedQuery: string): string {
    "/" + collection + "?" + encodedQuery
  }

  /** The decimal text of an id holds no `/`. */
  lemma IdHasNoSlash(id: int)
    ensures '/' !in IntToString(id)
  {
    var m := if id < 0 then -id else id;
    var d := NatDigits(m);
    assert forall i :: 0 <= i < |d| ==> d[i] != '/';
  }

  /** An action path splits at `/` into its collection, its id and its action, and the id
      text parses back to the id: the server can recover which record is meant. */
  lemma ActionPathParts(collection: string, id: int, action: string)
    requires '/' !in collection && '/' !in action
    ensures Split(ActionPath(collection, id, action), '/') == ["", collection, IntToString(id), action]
    ensures ToNumber(Split(ActionPath(collection, id, action), '/')[2]) == Num(id as real)
  {
    var parts := ["", collection, IntToString(id), action];
    IdHasNoSlash(id);
    var t := IntToString(id);
    assert Join(parts[3..], '/') == action;
    assert Join(parts[2..], '/') == t + "/" + action;
    assert Join(parts[1..], '/') == collection + "/" + t + "/" + action;
    assert ActionPath(collection, id, action) == Join(parts, '/');
    SplitJoin(parts, '/');
    NumberOfString(id);
  }

  /** The collection and action names of the record actions. */
  function ActionTarget(e: Endpoint): (r: (string, string))
    requires e.DispatchTrip? || e.CompleteTrip? || e.CompleteMaintenance?
    ensures '/' !in r.0 && '/' !in r.1
  {
    if e.DispatchTrip? then ("trips", "dispatch")
    else if e.CompleteTrip? then ("trips", "complete")
    else ("maintenance", "complete")
  }

  /** Dispatching or completing a trip, and completing a maintenance log, are PATCH
      requests without a body whose path names the collection, the record's id and the
      action, the id text parsing back to the id. */
  lemma ActionRequestsNameTheirRecord(e: Endpoint)
    requires e.DispatchTrip? || e.CompleteTrip? || e.CompleteMaintenance?
    ensures RequestOf(e).verb == PATCH && RequestOf(e).body.None?
    ensures Split(RequestOf(e).path, '/') == ["", ActionTarget(e).0, IntToString(e.id), ActionTarget(e).1]
    ensures ToNumber(Split(RequestOf(e).path, '/')[2]) == Num(e.id as real)
  {
    var t := ActionTarget(e);
    assert RequestOf(e).path == ActionPath(t.0, e.id, t.1);
    ActionPathParts(t.0, e.id, t.1);
  }
}
